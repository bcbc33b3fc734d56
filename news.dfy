/** `IRawNews` of models/News.ts: one scraped council-meeting item. */
module News {
  import opened Wrappers
  import opened Dates

  datatype ReportLink = ReportLink(title: string, url: string)

  datatype RawNews = RawNews(
    city: string,
    metroCity: Option<string>,
    url: string,
    date: Date,
    meetingType: string,
    title: string,
    resolutionId: Option<string>,
    contents: string,
    minutesUrl: Option<string>,
    reportUrls: seq<ReportLink>)

}
