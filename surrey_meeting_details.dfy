/** services/raw-news/cities/Surrey/GetMeetingDetails.ts: turning the items of one
    Surrey council meeting into raw news, each linked to the first corporate
    report and the first planning report its text refers to. The parsed items
    (`parseSurreyMeetingMinutes`, which reads the minutes page) are a parameter. */
module SurreyMeetingDetails {
  import opened Wrappers
  import opened Dates
  import opened Text
  import opened News

  /** `{date, url, title, contents, tag}`: one report listed on Surrey's site. */
  datatype Report = Report(date: Date, url: string, title: string, contents: string, tag: string)

  /** One parsed item of the minutes. */
  datatype MeetingItem = MeetingItem(resolutionId: Option<string>, title: string, content: string)

  // ---------------------------------------------------------------------------
  // Report ids: `r.title.match(/^(.*?):/)?.[1] || null`

  /** Index `i` ends the match of `/^(.*?):/`: it is the first `:` and no line
      terminator (which `.` does not match) comes before it. */
  predicate ColonAt(s: string, i: int)
  {
    0 <= i < |s| && s[i] == ':' && forall j :: 0 <= j < i ==> s[j] != ':' && !IsLineTerminator(s[j])
  }

  /** Where the lazy match of `/^(.*?):/` ends, if it matches at all. */
  function ColonIndex(s: string): (r: Option<nat>)
    ensures r.Some? ==> ColonAt(s, r.value)
    ensures r.None? ==> forall i :: 0 <= i < |s| ==> !ColonAt(s, i)
  {
    if s == [] then None
    else if s[0] == ':' then Some(0)
    else if IsLineTerminator(s[0]) then
      assert forall i :: 0 <= i < |s| ==> !ColonAt(s, i) by {
        forall i | 0 <= i < |s| ensures !ColonAt(s, i) {
          if i > 0 { assert !(s[0] != ':' && !IsLineTerminator(s[0])); }
        }
      }
      None
    else
      var rest := ColonIndex(s[1..]);
      assert forall i :: 0 <= i < |s| - 1 ==> (ColonAt(s[1..], i) <==> ColonAt(s, i + 1)) by {
        forall i | 0 <= i < |s| - 1 ensures ColonAt(s[1..], i) <==> ColonAt(s, i + 1) {
          assert forall j :: 0 <= j < i ==> s[1..][j] == s[j + 1];
        }
      }
      match rest
      case None =>
        assert forall i :: 0 <= i < |s| ==> !ColonAt(s, i) by {
          forall i | 0 <= i < |s| ensures !ColonAt(s, i) {
            if i > 0 { assert !ColonAt(s[1..], i - 1); }
          }
        }
        None
      case Some(i) => Some(i + 1)
  }

  /** The report id of a title: its text before the first `:`, present only when
      that text is non-empty (`|| null`) and on the title's first line. */
  function ReportId(title: string): (r: Option<string>)
    ensures r.Some? <==> exists i :: 0 < i && ColonAt(title, i)
    ensures r.Some? ==> exists i :: 0 < i && ColonAt(title, i) && r.value == title[..i]
  {
    match ColonIndex(title)
    case None => None
    case Some(i) => if i == 0 then None else Some(title[..i])
  }

  /** A report id never contains a `:` and is never empty. */
  lemma ReportIdShape(title: string)
    requires ReportId(title).Some?
    ensures ReportId(title).value != "" && ':' !in ReportId(title).value
  {
    var i :| 0 < i && ColonAt(title, i) && ReportId(title).value == title[..i];
    assert forall j :: 0 <= j < i ==> title[..i][j] == title[j];
  }

  // ---------------------------------------------------------------------------
  // Planning ids: `r.title.match(/(\d{4}-\d{4}-\d{2})/g) || []`

  predicate IsDigit(c: char)
  {
    '0' <= c <= '9'
  }

  /** `t` matches `\d{4}-\d{4}-\d{2}` exactly. */
  predicate IsPlanningId(t: string)
  {
    && |t| == 12
    && IsDigit(t[0]) && IsDigit(t[1]) && IsDigit(t[2]) && IsDigit(t[3]) && t[4] == '-'
    && IsDigit(t[5]) && IsDigit(t[6]) && IsDigit(t[7]) && IsDigit(t[8]) && t[9] == '-'
    && IsDigit(t[10]) && IsDigit(t[11])
  }

  /** A planning id starts at index `i` of `s`. */
  predicate IdAt(s: string, i: int)
  {
    0 <= i <= |s| - 12 && IsPlanningId(s[i..i + 12])
  }

  lemma OccursInSuffix(s: string, d: nat, pat: string, i: int)
    requires d <= |s| && OccursAt(s[d..], pat, i)
    ensures OccursAt(s, pat, i + d)
  {
    assert s[d..][i..i + |pat|] == s[i + d..i + d + |pat|];
  }

  /** The global match: scanning left to right, every id found, the search
      resuming after the end of each. */
  function PlanningIds(s: string): (r: seq<string>)
    ensures forall k :: 0 <= k < |r| ==> IsPlanningId(r[k]) && Occurs(s, r[k])
    ensures 12 * |r| <= |s|
    decreases |s|
  {
    if |s| < 12 then []
    else if IsPlanningId(s[..12]) then
      var rest := PlanningIds(s[12..]);
      assert OccursAt(s, s[..12], 0);
      assert forall k :: 0 <= k < |rest| ==> Occurs(s, rest[k]) by {
        forall k | 0 <= k < |rest| ensures Occurs(s, rest[k]) {
          var i :| OccursAt(s[12..], rest[k], i);
          OccursInSuffix(s, 12, rest[k], i);
        }
      }
      [s[..12]] + rest
    else
      var rest := PlanningIds(s[1..]);
      assert forall k :: 0 <= k < |rest| ==> Occurs(s, rest[k]) by {
        forall k | 0 <= k < |rest| ensures Occurs(s, rest[k]) {
          var i :| OccursAt(s[1..], rest[k], i);
          OccursInSuffix(s, 1, rest[k], i);
        }
      }
      rest
  }

  /** The match finds nothing exactly when no planning id occurs in the title. */
  lemma {:induction false} PlanningIdsEmpty(s: string)
    ensures PlanningIds(s) == [] <==> forall i :: !IdAt(s, i)
    decreases |s|
  {
    if PlanningIds(s) != [] {
      var id := PlanningIds(s)[0];
      var i :| OccursAt(s, id, i);
      assert IdAt(s, i);
    } else if |s| >= 12 {
      assert !IsPlanningId(s[..12]);
      PlanningIdsEmpty(s[1..]);
      forall i | IdAt(s, i) ensures false {
        assert i != 0;
        assert s[1..][i - 1..i - 1 + 12] == s[i..i + 12];
        assert IdAt(s[1..], i - 1);
      }
    }
  }

  /** What a global match returns, stated without scanning: `ids` are the ids
      of `s` from left to right, each taken at the leftmost position where an
      id starts, the next one searched for only after the end of the last. */
  ghost predicate LeftmostIds(s: string, ids: seq<string>)
    decreases |s|
  {
    if ids == [] then forall i :: !IdAt(s, i)
    else exists i :: && IdAt(s, i) && (forall j :: 0 <= j < i ==> !IdAt(s, j))
                     && s[i..i + 12] == ids[0] && LeftmostIds(s[i + 12..], ids[1..])
  }

  /** An id starts at `i + 1` of `s` exactly when one starts at `i` of its tail. */
  lemma IdAtTail(s: string, i: int)
    requires s != [] && 0 <= i
    ensures IdAt(s, i + 1) <==> IdAt(s[1..], i)
    ensures i + 13 <= |s| ==> s[i + 1..i + 13] == s[1..][i..i + 12] && s[i + 13..] == s[1..][i + 12..]
  {
    if 0 <= i <= |s| - 13 {
      assert s[i + 1..i + 13] == s[1..][i..i + 12];
    }
  }

  /** `PlanningIds` lists every match of the global regular expression, in
      order, and nothing else. */
  lemma {:induction false} PlanningIdsLeftmost(s: string)
    ensures LeftmostIds(s, PlanningIds(s))
    decreases |s|
  {
    var r := PlanningIds(s);
    if |s| < 12 {
      assert r == [];
    } else if IsPlanningId(s[..12]) {
      assert s[0..12] == s[..12];
      PlanningIdsLeftmost(s[12..]);
      assert r[1..] == PlanningIds(s[12..]);
      assert IdAt(s, 0) && s[0..12] == r[0] && LeftmostIds(s[0 + 12..], r[1..]);
    } else {
      assert s[0..12] == s[..12];
      assert !IdAt(s, 0);
      PlanningIdsLeftmost(s[1..]);
      assert r == PlanningIds(s[1..]);
      if r == [] {
        forall i ensures !IdAt(s, i) {
          if i >= 1 { IdAtTail(s, i - 1); }
        }
      } else {
        var i' :| && IdAt(s[1..], i') && (forall j :: 0 <= j < i' ==> !IdAt(s[1..], j))
                  && s[1..][i'..i' + 12] == r[0] && LeftmostIds(s[1..][i' + 12..], r[1..]);
        IdAtTail(s, i');
        forall j | 0 <= j < i' + 1 ensures !IdAt(s, j) {
          if j >= 1 { IdAtTail(s, j - 1); }
        }
        assert IdAt(s, i' + 1) && s[i' + 1..i' + 13] == r[0] && LeftmostIds(s[i' + 13..], r[1..]);
      }
    }
  }

  /** Only one position is the first where an id starts. */
  lemma FirstIdUnique(s: string, i: int, k: int)
    requires IdAt(s, i) && forall j :: 0 <= j < i ==> !IdAt(s, j)
    requires IdAt(s, k) && forall j :: 0 <= j < k ==> !IdAt(s, j)
    ensures i == k
  {
    assert !(i < k) && !(k < i);
  }

  /** The leftmost matches of a string are unique: `LeftmostIds` pins the list. */
  lemma {:induction false} LeftmostIdsUnique(s: string, a: seq<string>, b: seq<string>)
    requires LeftmostIds(s, a) && LeftmostIds(s, b)
    ensures a == b
    decreases |s|
  {
    if a != [] && b != [] {
      var i :| && IdAt(s, i) && (forall j :: 0 <= j < i ==> !IdAt(s, j))
               && s[i..i + 12] == a[0] && LeftmostIds(s[i + 12..], a[1..]);
      var k :| && IdAt(s, k) && (forall j :: 0 <= j < k ==> !IdAt(s, j))
               && s[k..k + 12] == b[0] && LeftmostIds(s[k + 12..], b[1..]);
      FirstIdUnique(s, i, k);
      LeftmostIdsUnique(s[i + 12..], a[1..], b[1..]);
      assert a == [a[0]] + a[1..] && b == [b[0]] + b[1..];
    }
  }

  // ---------------------------------------------------------------------------
  // Matching reports to an item

  /** The test of the corporate search: dated on or before the meeting, with a
      report id that the item's content includes. */
  predicate CorporateMatches(r: Report, date: Date, content: string)
  {
    SameOrBefore(r.date, date) && ReportId(r.title).Some? && Contains(content, ReportId(r.title).value)
  }

  /** The test of the planning search: some planning id of the title is
      included in the item's content. */
  predicate PlanningMatches(r: Report, content: string)
  {
    exists k :: 0 <= k < |PlanningIds(r.title)| && Contains(content, PlanningIds(r.title)[k])
  }

  function CorporateTest(date: Date, content: string): Report -> bool
  {
    (r: Report) => CorporateMatches(r, date, content)
  }

  function PlanningTest(content: string): Report -> bool
  {
    (r: Report) => PlanningMatches(r, content)
  }

  /** The index of the report `.some(...)` stops at: the first one passing `p`. */
  function FirstMatch(reports: seq<Report>, p: Report -> bool): (r: Option<nat>)
    ensures r.Some? ==> r.value < |reports| && p(reports[r.value])
                        && forall j :: 0 <= j < r.value ==> !p(reports[j])
    ensures r.None? ==> forall j :: 0 <= j < |reports| ==> !p(reports[j])
  {
    if reports == [] then None
    else if p(reports[0]) then Some(0)
    else
      var rest := FirstMatch(reports[1..], p);
      assert forall j :: 1 <= j < |reports| ==> reports[j] == reports[1..][j - 1];
      match rest
      case None => None
      case Some(i) => Some(i + 1)
  }

  /** The `.some(...)` loop, stopping at the first report that passes `p`. */
  method FindReport(reports: seq<Report>, p: Report -> bool) returns (r: Option<nat>)
    ensures r == FirstMatch(reports, p)
  {
    var i := 0;
    while i < |reports|
      invariant 0 <= i <= |reports|
      invariant forall j :: 0 <= j < i ==> !p(reports[j])
    {
      if p(reports[i]) {
        FirstMatchIs(reports, p, i);
        return Some(i);
      }
      i := i + 1;
    }
    FirstMatchNone(reports, p);
    return None;
  }

  lemma FirstMatchIs(reports: seq<Report>, p: Report -> bool, i: nat)
    requires i < |reports| && p(reports[i]) && forall j :: 0 <= j < i ==> !p(reports[j])
    ensures FirstMatch(reports, p) == Some(i)
  {
    var r := FirstMatch(reports, p);
    if r.Some? {
      assert !(r.value < i) && !(i < r.value);
    }
  }

  lemma FirstMatchNone(reports: seq<Report>, p: Report -> bool)
    requires forall j :: 0 <= j < |reports| ==> !p(reports[j])
    ensures FirstMatch(reports, p) == None
  {
  }

  /** The reports pushed onto `matchingReports` by one search. */
  function Matched(reports: seq<Report>, p: Report -> bool): seq<Report>
  {
    match FirstMatch(reports, p)
    case None => []
    case Some(i) => [reports[i]]
  }

  /** `matchingReports.map((r) => ({ title: r.title, url: r.url }))`. */
  function Links(reports: seq<Report>): (r: seq<ReportLink>)
    ensures |r| == |reports|
    ensures forall k :: 0 <= k < |reports| ==> r[k] == ReportLink(reports[k].title, reports[k].url)
  {
    seq(|reports|, k requires 0 <= k < |reports| => ReportLink(reports[k].title, reports[k].url))
  }

  /** The raw news pushed for one item. */
  function ItemNews(url: string, date: Date, meetingType: string, corporate: seq<Report>,
                    planning: seq<Report>, item: MeetingItem): (r: RawNews)
    ensures |r.reportUrls| <= 2
  {
    RawNews(
      "Surrey", Some("Metro Vancouver"), url, date, meetingType, item.title, item.resolutionId,
      item.content, Some(url),
      Links(Matched(corporate, CorporateTest(date, item.content)) + Matched(planning, PlanningTest(item.content))))
  }

  /** The body of the loop of `getMeetingDetails` for one item: both searches,
      then the raw news. */
  method MatchItem(url: string, date: Date, meetingType: string, corporate: seq<Report>,
                   planning: seq<Report>, item: MeetingItem) returns (news: RawNews)
    ensures news == ItemNews(url, date, meetingType, corporate, planning, item)
  {
    var matchingReports: seq<Report> := [];
    var c := FindReport(corporate, CorporateTest(date, item.content));
    if c.Some? {
      matchingReports := matchingReports + [corporate[c.value]];
    }
    var p := FindReport(planning, PlanningTest(item.content));
    if p.Some? {
      matchingReports := matchingReports + [planning[p.value]];
    }
    assert matchingReports == Matched(corporate, CorporateTest(date, item.content)) + Matched(planning, PlanningTest(item.content));
    news := RawNews(
      "Surrey", Some("Metro Vancouver"), url, date, meetingType, item.title, item.resolutionId,
      item.content, Some(url), Links(matchingReports));
  }

  /** The raw news of the items, in item order, as the loop pushes them. */
  function AllNews(url: string, date: Date, meetingType: string, corporate: seq<Report>,
                   planning: seq<Report>, items: seq<MeetingItem>): (r: seq<RawNews>)
    ensures |r| == |items|
  {
    if items == [] then []
    else
      AllNews(url, date, meetingType, corporate, planning, items[..|items| - 1])
      + [ItemNews(url, date, meetingType, corporate, planning, items[|items| - 1])]
  }

  /** Entry `k` is the raw news of item `k`. */
  lemma {:induction false} AllNewsIndex(url: string, date: Date, meetingType: string, corporate: seq<Report>,
                                        planning: seq<Report>, items: seq<MeetingItem>, k: int)
    requires 0 <= k < |items|
    ensures AllNews(url, date, meetingType, corporate, planning, items)[k]
            == ItemNews(url, date, meetingType, corporate, planning, items[k])
  {
    if k < |items| - 1 {
      var init := items[..|items| - 1];
      AllNewsIndex(url, date, meetingType, corporate, planning, init, k);
      assert AllNews(url, date, meetingType, corporate, planning, items)[k]
             == AllNews(url, date, meetingType, corporate, planning, init)[k];
    }
  }

  /** `getMeetingDetails`: one raw news per parsed item, in order. */
  method GetMeetingDetails(url: string, date: Date, meetingType: string, corporate: seq<Report>,
                           planning: seq<Report>, items: seq<MeetingItem>) returns (results: seq<RawNews>)
    ensures results == AllNews(url, date, meetingType, corporate, planning, items)
  {
    results := [];
    for n := 0 to |items|
      invariant results == AllNews(url, date, meetingType, corporate, planning, items[..n])
    {
      var news := MatchItem(url, date, meetingType, corporate, planning, items[n]);
      assert items[..n + 1][..n] == items[..n];
      results := results + [news];
    }
    assert items[..|items|] == items;
  }

  /** Every news item is Surrey's, in Metro Vancouver, with the minutes as both
      its url and its minutes url, and its item's title, resolution id and
      content. It links at most two reports: first the earliest-listed
      corporate report dated on or before the meeting whose id the content
      includes, if there is one, then the earliest-listed planning report one
      of whose ids the content includes, if there is one, and nothing else. */
  lemma {:induction false} ItemNewsShape(url: string, date: Date, meetingType: string, corporate: seq<Report>,
                                         planning: seq<Report>, item: MeetingItem)
    ensures var n := ItemNews(url, date, meetingType, corporate, planning, item);
            && n.city == "Surrey" && n.metroCity == Some("Metro Vancouver")
            && n.url == url && n.minutesUrl == Some(url) && n.date == date && n.meetingType == meetingType
            && n.title == item.title && n.resolutionId == item.resolutionId && n.contents == item.content
            && |n.reportUrls|
               == (if exists i :: 0 <= i < |corporate| && CorporateMatches(corporate[i], date, item.content) then 1 else 0)
                  + (if exists i :: 0 <= i < |planning| && PlanningMatches(planning[i], item.content) then 1 else 0)
    ensures var n := ItemNews(url, date, meetingType, corporate, planning, item);
            (exists i :: 0 <= i < |corporate| && CorporateMatches(corporate[i], date, item.content)) ==>
              exists i :: && 0 <= i < |corporate| && CorporateMatches(corporate[i], date, item.content)
                          && (forall j :: 0 <= j < i ==> !CorporateMatches(corporate[j], date, item.content))
                          && n.reportUrls[0] == ReportLink(corporate[i].title, corporate[i].url)
    ensures var n := ItemNews(url, date, meetingType, corporate, planning, item);
            (exists i :: 0 <= i < |planning| && PlanningMatches(planning[i], item.content)) ==>
              exists i :: && 0 <= i < |planning| && PlanningMatches(planning[i], item.content)
                          && (forall j :: 0 <= j < i ==> !PlanningMatches(planning[j], item.content))
                          && n.reportUrls[|n.reportUrls| - 1] == ReportLink(planning[i].title, planning[i].url)
    ensures var n := ItemNews(url, date, meetingType, corporate, planning, item);
            n.reportUrls == [] <==>
              && (forall i :: 0 <= i < |corporate| ==> !CorporateMatches(corporate[i], date, item.content))
              && (forall i :: 0 <= i < |planning| ==> !PlanningMatches(planning[i], item.content))
  {
    var c := FirstMatch(corporate, CorporateTest(date, item.content));
    var p := FirstMatch(planning, PlanningTest(item.content));
    var ms := Matched(corporate, CorporateTest(date, item.content)) + Matched(planning, PlanningTest(item.content));
    if c.Some? {
      assert ms[0] == corporate[c.value];
    }
    if p.Some? {
      assert ms[|ms| - 1] == planning[p.value];
    }
  }
}
