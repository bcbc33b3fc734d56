/** services/rezonings/cities/Surrey/Bylaws.ts: recognising a Surrey
    amendment-bylaw news item, and building rezoning records from the AI's
    answer about it. The ids `findApplicationIDsFromTemplate('XXXX-XXXX-XX', ...)`
    finds in the contents and the AI response are parameters. */
module SurreyBylaws {
  import opened Wrappers
  import opened Text
  import opened Records
  import opened News
  import opened RezoningInputs

  /** `checkIfBylaw(news)`, given the ids found in `news.contents`. */
  function CheckIfBylaw(news: RawNews, ids: seq<string>): (r: bool)
    ensures r <==> && |ids| > 0
                   && !Occurs(Lower(news.title), "land use application")
                   && Occurs(Lower(news.title), "bylaws and permits")
                   && Occurs(Lower(news.contents), "amendment bylaw")
                   && !Occurs(Lower(news.contents), "reading")
  {
    var includesDevelopmentId := |ids| > 0;
    var isNotLandUseApplication := !Contains(Lower(news.title), "land use application");
    var includesBylawsAndPermits := Contains(Lower(news.title), "bylaws and permits");
    var includesRezoning := Contains(Lower(news.contents), "amendment bylaw");
    var isNotReading := !Contains(Lower(news.contents), "reading");
    includesDevelopmentId && isNotLandUseApplication && includesBylawsAndPermits && includesRezoning && isNotReading
  }

  /** The record built from one AI record: no summary has a report url, and the
      building type and zoning are passed on. */
  function BylawRecord(news: RawNews, src: PartialRecord): RecordInput
  {
    var status := src.status;
    RecordInput(
      "Surrey", "Metro Vancouver", Rezoning, src.applicationId, src.address, src.applicant, src.behalf,
      src.description, Summaries(src.rawSummaries, news.date, status, None), src.buildingType, status,
      DecisionDates(status, news.date), src.stats, Some(src.zoning), ReportUrls(news, status), MinutesUrls(news, status))
  }

  /** `parseBylaw(news)` after the id search and the AI call: `ids` are the ids
      found in the contents, `response` the AI's answer (`None` when falsy). */
  function ParseBylaw(news: RawNews, ids: seq<string>, response: Option<seq<PartialRecord>>): (r: seq<RecordInput>)
    ensures r != [] ==> ids != [] && response.Some? && |r| == |response.value|
  {
    if |ids| == 0 then []
    else if response.None? || response.value == [] then []
    else seq(|response.value|, i requires 0 <= i < |response.value| => BylawRecord(news, response.value[i]))
  }

  /** No record comes out exactly when no id was found or the AI gave no records. */
  lemma ParseBylawEmpty(news: RawNews, ids: seq<string>, response: Option<seq<PartialRecord>>)
    ensures ParseBylaw(news, ids, response) == [] <==> ids == [] || response.None? || response.value == []
  {
  }

  /** One record per AI record, in order, every one kept whether or not it has
      an application id: Surrey's, with the AI record's status, building type
      and zoning, only the decision date of that status set (to the news date),
      no report url on any summary, and each summary, report url and minutes
      url carrying the news date and status. */
  lemma {:induction false} ParseBylawRecords(news: RawNews, ids: seq<string>, response: Option<seq<PartialRecord>>)
    requires ids != [] && response.Some?
    ensures |ParseBylaw(news, ids, response)| == |response.value|
    ensures forall k :: 0 <= k < |response.value| ==>
              var rec, src := ParseBylaw(news, ids, response)[k], response.value[k];
              && rec.city == "Surrey"
              && rec.buildingType == src.buildingType
              && rec.zoning == Some(src.zoning)
              && rec.dates == DecisionDates(src.status, news.date)
              && BuiltFrom(rec, src, news, src.status, None)
  {
    forall k | 0 <= k < |response.value|
      ensures var rec, src := ParseBylaw(news, ids, response)[k], response.value[k];
              && rec.city == "Surrey"
              && rec.buildingType == src.buildingType
              && rec.zoning == Some(src.zoning)
              && rec.dates == DecisionDates(src.status, news.date)
              && BuiltFrom(rec, src, news, src.status, None)
    {
      var rec, src := ParseBylaw(news, ids, response)[k], response.value[k];
      assert rec == BylawRecord(news, src);
      BuiltFromParts(rec, src, news, src.status, None);
    }
  }
}
