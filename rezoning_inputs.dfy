/** What the bylaw and public-hearing parsers of the Burnaby, Surrey and
    Richmond rezoning services read and build: the partial records `AIGetPartialRecords` answers with (a
    parameter here), and the object each of them passes to `new FullRecord(...)`
    (the `FullRecord` class itself is not part of this model). */
module RezoningInputs {
  import opened Wrappers
  import opened Dates
  import opened Records
  import opened News

  /** `{ summary }`. */
  datatype PartialSummary = PartialSummary(summary: string)

  /** One element of an `AIGetPartialRecords` response, as far as the parsers
      read it; `status` is absent when it was not asked for or not given. */
  datatype PartialRecord = PartialRecord(
    applicationId: Option<string>,
    address: string,
    applicant: Option<string>,
    behalf: Option<string>,
    description: string,
    rawSummaries: seq<PartialSummary>,
    status: Option<ZoningStatus>,
    buildingType: Option<BuildingType>,
    stats: Stats,
    zoning: Zoning)

  /** `{ summary, date, status, reportUrl }`. */
  datatype RawSummary = RawSummary(summary: string, date: Date, status: Option<ZoningStatus>, reportUrl: Option<string>)

  /** `{ date, title, url, status }`. */
  datatype InputReportUrl = InputReportUrl(date: Date, title: string, url: string, status: Option<ZoningStatus>)

  /** `{ date, url, status }`. */
  datatype InputMinutesUrl = InputMinutesUrl(date: Date, url: string, status: Option<ZoningStatus>)

  /** The object literal given to `new FullRecord(...)`. `buildingType` and
      `zoning` are `None` where a parser does not pass them. */
  datatype RecordInput = RecordInput(
    city: string,
    metroCity: string,
    recordType: RecordType,
    applicationId: Option<string>,
    address: string,
    applicant: Option<string>,
    behalf: Option<string>,
    description: string,
    rawSummaries: seq<RawSummary>,
    buildingType: Option<BuildingType>,
    status: Option<ZoningStatus>,
    dates: RecordDates,
    stats: Stats,
    zoning: Option<Zoning>,
    reportUrls: seq<InputReportUrl>,
    minutesUrls: seq<InputMinutesUrl>)

  /** The `dates` of a bylaw record: the news date goes into the field of the
      decision the status names. */
  function DecisionDates(status: Option<ZoningStatus>, date: Date): RecordDates
  {
    var none := RecordDates(None, None, None, None, None);
    match status
    case Some(Approved) => none.(approvalDate := Some(date))
    case Some(Denied) => none.(denialDate := Some(date))
    case Some(Withdrawn) => none.(withdrawnDate := Some(date))
    case _ => none
  }

  /** `appliedDate` and `publicHearingDate` are never set; each decision date
      is set, to the news date, exactly when the status is that decision. */
  lemma DecisionDatesShape(status: Option<ZoningStatus>, date: Date)
    ensures DecisionDates(status, date).appliedDate == None
    ensures DecisionDates(status, date).publicHearingDate == None
    ensures DecisionDates(status, date).approvalDate.Some? <==> status == Some(Approved)
    ensures DecisionDates(status, date).denialDate.Some? <==> status == Some(Denied)
    ensures DecisionDates(status, date).withdrawnDate.Some? <==> status == Some(Withdrawn)
    ensures DecisionDates(status, date).approvalDate.Some? ==> DecisionDates(status, date).approvalDate.value == date
    ensures DecisionDates(status, date).denialDate.Some? ==> DecisionDates(status, date).denialDate.value == date
    ensures DecisionDates(status, date).withdrawnDate.Some? ==> DecisionDates(status, date).withdrawnDate.value == date
  {
  }

  /** `record.rawSummaries.map(...)`: each summary text with the news date, the
      record's status and `reportUrl`. */
  function Summaries(parts: seq<PartialSummary>, date: Date, status: Option<ZoningStatus>, reportUrl: Option<string>): (r: seq<RawSummary>)
    ensures |r| == |parts|
  {
    seq(|parts|, i requires 0 <= i < |parts| => RawSummary(parts[i].summary, date, status, reportUrl))
  }

  /** `news.reportUrls.map(...)`: each report link with the news date and status. */
  function ReportUrls(news: RawNews, status: Option<ZoningStatus>): (r: seq<InputReportUrl>)
    ensures |r| == |news.reportUrls|
  {
    seq(|news.reportUrls|, i requires 0 <= i < |news.reportUrls| =>
      InputReportUrl(news.date, news.reportUrls[i].title, news.reportUrls[i].url, status))
  }

  /** `news.minutesUrl ? [{ date, url, status }] : []`. */
  function MinutesUrls(news: RawNews, status: Option<ZoningStatus>): seq<InputMinutesUrl>
  {
    if Truthy(news.minutesUrl) then [InputMinutesUrl(news.date, news.minutesUrl.value, status)] else []
  }

  /** `input` carries `src`'s own fields, and every raw summary, report url and
      minutes url entry of it carries the news date and `status`: the summaries
      one per summary of `src` with its text and `reportUrl`, the report urls
      one per report of the news in order, and one minutes url exactly when the
      news has a minutes url. */
  ghost predicate BuiltFrom(input: RecordInput, src: PartialRecord, news: RawNews, status: Option<ZoningStatus>, reportUrl: Option<string>)
  {
    && input.recordType == Rezoning
    && input.metroCity == "Metro Vancouver"
    && input.applicationId == src.applicationId
    && input.address == src.address
    && input.applicant == src.applicant
    && input.behalf == src.behalf
    && input.description == src.description
    && input.stats == src.stats
    && input.status == status
    && |input.rawSummaries| == |src.rawSummaries|
    && (forall i :: 0 <= i < |input.rawSummaries| ==>
          input.rawSummaries[i] == RawSummary(src.rawSummaries[i].summary, news.date, status, reportUrl))
    && |input.reportUrls| == |news.reportUrls|
    && (forall i :: 0 <= i < |input.reportUrls| ==>
          input.reportUrls[i] == InputReportUrl(news.date, news.reportUrls[i].title, news.reportUrls[i].url, status))
    && (|input.minutesUrls| == 1 <==> Truthy(news.minutesUrl))
    && (input.minutesUrls == [] <==> !Truthy(news.minutesUrl))
    && (forall m :: m in input.minutesUrls ==> m == InputMinutesUrl(news.date, news.minutesUrl.value, status))
  }

  /** The entries built by `Summaries`, `ReportUrls` and `MinutesUrls` are the
      ones `BuiltFrom` describes. */
  lemma BuiltFromParts(input: RecordInput, src: PartialRecord, news: RawNews, status: Option<ZoningStatus>, reportUrl: Option<string>)
    requires input.recordType == Rezoning && input.metroCity == "Metro Vancouver"
    requires input.applicationId == src.applicationId && input.address == src.address
    requires input.applicant == src.applicant && input.behalf == src.behalf
    requires input.description == src.description && input.stats == src.stats && input.status == status
    requires input.rawSummaries == Summaries(src.rawSummaries, news.date, status, reportUrl)
    requires input.reportUrls == ReportUrls(news, status)
    requires input.minutesUrls == MinutesUrls(news, status)
    ensures BuiltFrom(input, src, news, status, reportUrl)
  {
  }
}
