/** services/rezonings/cities/Richmond/PublicHearings.ts: recognising the
    minutes of a Richmond public hearing, and building rezoning records from
    the AI's answer about its first report. The text `parseCleanPDF` extracts
    from that report, the ids `findApplicationIDsFromTemplate('RZ XX-XXXXXX', ...)`
    finds in it and the AI response are parameters. */
module RichmondPublicHearings {
  import opened Wrappers
  import opened Records
  import opened News
  import opened RezoningInputs

  /** `checkIfPublicHearing(news)`: unlike the bylaw classifiers it compares
      the city and the meeting type exactly, without `includes` or lower-casing. */
  function CheckIfPublicHearing(news: RawNews): (r: bool)
    ensures r <==> && news.city == "Richmond"
                   && news.meetingType == "Public Hearing Minutes"
                   && news.reportUrls != []
  {
    news.city == "Richmond" && |news.reportUrls| > 0 && news.meetingType == "Public Hearing Minutes"
  }

  /** The `dates` of a public-hearing record. */
  function HearingDates(news: RawNews): RecordDates
  {
    RecordDates(None, Some(news.date), None, None, None)
  }

  /** The record built from one AI record. */
  function HearingRecord(news: RawNews, src: PartialRecord): RecordInput
    requires news.reportUrls != []
  {
    var status := Some(PublicHearing);
    RecordInput(
      "Richmond", "Metro Vancouver", Rezoning, src.applicationId, src.address, src.applicant, src.behalf,
      src.description, Summaries(src.rawSummaries, news.date, status, Some(news.reportUrls[0].url)),
      src.buildingType, status, HearingDates(news), src.stats, Some(src.zoning),
      ReportUrls(news, status), MinutesUrls(news, status))
  }

  /** `parsePublicHearing(news)` after the PDF, id and AI calls: `pdf` is the
      parsed text of the first report (`None` when falsy), `ids` the ids found
      in it, `response` the AI's answer. Reading `news.reportUrls[0]` with no
      report throws a `TypeError`, which is caught and yields no records. */
  function ParsePublicHearing(news: RawNews, pdf: Option<string>, ids: seq<string>,
                              response: Option<seq<PartialRecord>>): (r: seq<RecordInput>)
    ensures r != [] ==> news.reportUrls != [] && Truthy(pdf) && ids != [] && response.Some?
                        && |r| == |response.value|
  {
    if news.reportUrls == [] then []
    else if !Truthy(pdf) then []
    else if |ids| == 0 then []
    else if response.None? || response.value == [] then []
    else seq(|response.value|, i requires 0 <= i < |response.value| => HearingRecord(news, response.value[i]))
  }

  /** No record comes out exactly when the news has no report, the PDF text is
      empty, no id was found or the AI gave no records; so for news the
      classifier accepts, only the PDF, the ids and the AI can leave it empty. */
  lemma ParsePublicHearingEmpty(news: RawNews, pdf: Option<string>, ids: seq<string>, response: Option<seq<PartialRecord>>)
    ensures ParsePublicHearing(news, pdf, ids, response) == [] <==>
              news.reportUrls == [] || !Truthy(pdf) || ids == [] || response.None? || response.value == []
    ensures CheckIfPublicHearing(news) ==>
              (ParsePublicHearing(news, pdf, ids, response) == [] <==>
                 !Truthy(pdf) || ids == [] || response.None? || response.value == [])
  {
  }

  /** One record per AI record, in order: Richmond's, with status public
      hearing, only `publicHearingDate` set (to the news date), every summary's
      report url the news item's first report url, and each summary, report url
      and minutes url carrying the news date and the public-hearing status. */
  lemma {:induction false} ParsePublicHearingRecords(news: RawNews, pdf: Option<string>, ids: seq<string>,
                                                     response: Option<seq<PartialRecord>>)
    requires ParsePublicHearing(news, pdf, ids, response) != []
    ensures news.reportUrls != [] && response.Some?
    ensures |ParsePublicHearing(news, pdf, ids, response)| == |response.value|
    ensures forall k :: 0 <= k < |response.value| ==>
              var rec, src := ParsePublicHearing(news, pdf, ids, response)[k], response.value[k];
              && rec.city == "Richmond"
              && rec.status == Some(PublicHearing)
              && rec.dates.publicHearingDate == Some(news.date)
              && rec.dates.appliedDate == None && rec.dates.approvalDate == None
              && rec.dates.denialDate == None && rec.dates.withdrawnDate == None
              && rec.buildingType == src.buildingType
              && rec.zoning == Some(src.zoning)
              && BuiltFrom(rec, src, news, Some(PublicHearing), Some(news.reportUrls[0].url))
  {
    forall k | 0 <= k < |response.value|
      ensures var rec, src := ParsePublicHearing(news, pdf, ids, response)[k], response.value[k];
              && rec.city == "Richmond"
              && rec.status == Some(PublicHearing)
              && rec.dates.publicHearingDate == Some(news.date)
              && rec.dates.appliedDate == None && rec.dates.approvalDate == None
              && rec.dates.denialDate == None && rec.dates.withdrawnDate == None
              && rec.buildingType == src.buildingType
              && rec.zoning == Some(src.zoning)
              && BuiltFrom(rec, src, news, Some(PublicHearing), Some(news.reportUrls[0].url))
    {
      var rec, src := ParsePublicHearing(news, pdf, ids, response)[k], response.value[k];
      assert rec == HearingRecord(news, src);
      BuiltFromParts(rec, src, news, Some(PublicHearing), Some(news.reportUrls[0].url));
    }
  }
}
