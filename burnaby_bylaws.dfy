/** services/rezonings/cities/Burnaby/Bylaws.ts: recognising a Burnaby
    rezoning-bylaw news item, and building rezoning records from the AI's
    answer about it. The application ids `findApplicationIDsFromTemplate` finds
    and the AI response are parameters. */
module BurnabyBylaws {
  import opened Wrappers
  import opened Text
  import opened Seqs
  import opened Records
  import opened News
  import opened RezoningInputs

  /** "City Council Meeting" contains "City Council", so testing both is testing the shorter. */
  lemma CouncilMeetingSubsumed(s: string)
    ensures Contains(s, "City Council Meeting") ==> Contains(s, "City Council")
  {
    if Contains(s, "City Council Meeting") {
      assert OccursAt("City Council Meeting", "City Council", 0);
      ContainsLonger(s, "City Council Meeting", "City Council");
    }
  }

  /** `checkIfBylaw(news)`. */
  function CheckIfBylaw(news: RawNews): (r: bool)
    ensures r <==> && news.city == "Burnaby"
                   && Occurs(news.meetingType, "City Council")
                   && (Occurs(Lower(news.title), "final adoption") || Occurs(Lower(news.title), "abandonment"))
                   && Occurs(Lower(news.title), "zoning bylaw")
                   && Occurs(Lower(news.title), "rez")
  {
    CouncilMeetingSubsumed(news.meetingType);
    var isBurnaby := news.city == "Burnaby";
    var isCityCouncil := Contains(news.meetingType, "City Council Meeting") || Contains(news.meetingType, "City Council");
    var title := Lower(news.title);
    var isFinalAdoptionOrAbandonment := Contains(title, "final adoption") || Contains(title, "abandonment");
    var isRezoningTitle := Contains(title, "zoning bylaw");
    var hasRez := Contains(title, "rez");
    isBurnaby && isCityCouncil && isFinalAdoptionOrAbandonment && isRezoningTitle && hasRez && hasRez
  }

  /** The `.filter((record) => record.applicationId)` callback. */
  function HasApplicationId(): PartialRecord -> bool
  {
    (p: PartialRecord) => Truthy(p.applicationId)
  }

  /** `news.reportUrls[0].url`, which throws a `TypeError` on an empty list. */
  predicate FirstUrlThrows(news: RawNews, kept: seq<PartialRecord>)
  {
    news.reportUrls == [] && exists i :: 0 <= i < |kept| && kept[i].rawSummaries != []
  }

  /** `news.reportUrls[0].url`, where there is one. */
  function FirstReportUrl(news: RawNews): Option<string>
  {
    if news.reportUrls == [] then None else Some(news.reportUrls[0].url)
  }

  /** The record built from one kept AI record. */
  function BylawRecord(news: RawNews, src: PartialRecord): RecordInput
    requires news.reportUrls != [] || src.rawSummaries == []
  {
    var status := src.status;
    var reportUrl := FirstReportUrl(news);
    RecordInput(
      "Burnaby", "Metro Vancouver", Rezoning, src.applicationId, src.address, src.applicant, src.behalf,
      src.description, Summaries(src.rawSummaries, news.date, status, reportUrl), None, status,
      DecisionDates(status, news.date), src.stats, None, ReportUrls(news, status), MinutesUrls(news, status))
  }

  /** `parseBylaw(news)` after the id search and the AI call: `ids` are the ids
      found in the title and contents, `response` the AI's answer (`None` when
      falsy). A thrown `TypeError` is caught and yields no records. */
  function ParseBylaw(news: RawNews, ids: seq<string>, response: Option<seq<PartialRecord>>): (r: seq<RecordInput>)
    ensures r != [] ==> ids != [] && response.Some? && |r| <= |response.value|
  {
    var rezoningId := if |ids| > 0 then Some(ids[0]) else None;
    if !Truthy(rezoningId) then []
    else if response.None? || response.value == [] then []
    else
      var kept := Filter(response.value, HasApplicationId());
      if FirstUrlThrows(news, kept) then []
      else seq(|kept|, i requires 0 <= i < |kept| => BylawRecord(news, kept[i]))
  }

  /** No record comes out exactly when no usable id was found, the AI gave no
      records, none had an application id, or the first report url was needed
      and missing. */
  lemma {:induction false} ParseBylawEmpty(news: RawNews, ids: seq<string>, response: Option<seq<PartialRecord>>)
    ensures ParseBylaw(news, ids, response) == [] <==>
              || ids == [] || ids[0] == ""
              || response.None?
              || (forall i :: 0 <= i < |response.value| ==> !Truthy(response.value[i].applicationId))
              || FirstUrlThrows(news, Filter(response.value, HasApplicationId()))
  {
    if ids != [] && ids[0] != "" && response.Some? {
      var kept := Filter(response.value, HasApplicationId());
      if forall i :: 0 <= i < |response.value| ==> !Truthy(response.value[i].applicationId) {
        FilterKeepsNone(response.value, HasApplicationId());
      } else {
        var i :| 0 <= i < |response.value| && Truthy(response.value[i].applicationId);
        FilterCount(response.value, HasApplicationId(), response.value[i]);
        assert multiset(response.value)[response.value[i]] > 0;
        assert response.value[i] in kept;
      }
    }
  }

  /** Every record is Burnaby's, built from the AI records that have an
      application id, in order, one each: the status is the AI record's, only
      its decision date is set (to the news date), and each summary, report url
      and minutes url carries the news date and that status; each summary's
      report url is the news item's first report url. */
  lemma {:induction false} ParseBylawRecords(news: RawNews, ids: seq<string>, response: Option<seq<PartialRecord>>)
    requires ParseBylaw(news, ids, response) != []
    ensures response.Some?
    ensures var kept := Filter(response.value, HasApplicationId());
            && |ParseBylaw(news, ids, response)| == |kept|
            && forall k :: 0 <= k < |kept| ==>
                 var rec := ParseBylaw(news, ids, response)[k];
                 && rec.city == "Burnaby"
                 && Truthy(rec.applicationId)
                 && rec.buildingType == None && rec.zoning == None
                 && rec.dates == DecisionDates(kept[k].status, news.date)
                 && BuiltFrom(rec, kept[k], news, kept[k].status, FirstReportUrl(news))
                 && forall i :: 0 <= i < |rec.rawSummaries| ==>
                      news.reportUrls != [] && rec.rawSummaries[i].reportUrl == Some(news.reportUrls[0].url)
  {
    var kept := Filter(response.value, HasApplicationId());
    forall k | 0 <= k < |kept|
      ensures var rec := ParseBylaw(news, ids, response)[k];
              && rec.city == "Burnaby"
              && Truthy(rec.applicationId)
              && rec.buildingType == None && rec.zoning == None
              && rec.dates == DecisionDates(kept[k].status, news.date)
              && BuiltFrom(rec, kept[k], news, kept[k].status, FirstReportUrl(news))
              && forall i :: 0 <= i < |rec.rawSummaries| ==>
                   news.reportUrls != [] && rec.rawSummaries[i].reportUrl == Some(news.reportUrls[0].url)
    {
      assert kept[k] in kept;
      var rec := ParseBylaw(news, ids, response)[k];
      assert rec == BylawRecord(news, kept[k]);
      BuiltFromParts(rec, kept[k], news, kept[k].status, FirstReportUrl(news));
    }
  }
}
