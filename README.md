# gridview-analytics-api: record queries, raw-news store, analytics and meeting parsers

This project models, in Dafny, the self-contained record and news logic of the
gridview-analytics-api service. That service collects rezoning and
development-permit records for the cities of Metro Vancouver from council
meeting news, and serves them with yearly analytics. Each module follows one
source file:

- `RecordsRepository`: the two read-only queries over the stored records,
  `getRezonings` and `getDevelopmentPermits`. Each is a type filter, then a city
  filter that can be a string, a list of strings or `null`, and returns
  `{total, data}`.
- `RezoningsRepository`: the older `getRezonings`, which has a city filter only.
- `RawNewsOrder`: `reorderItems`, the stable newest-first sort. It is an in-place
  insertion sort on an `array`, proved equal to the functional `NewestFirst`.
  `NewestFirst` is proved to be a permutation, ordered and stable.
- `RawNewsRepository`: the raw-news store. It is a class holding the JSON
  file's contents as a `seq` field. Its methods are the five guarded filter and
  slice stages of `getNews`, and the writers `upsertNews`,
  `dangerouslyUpdateNews` and `dangerouslyUpdateAllNews`.
- `StringUtilities`: `cleanString`, with each JavaScript string step modelled
  on its own.
- `Analytics`: `groupByYear` and `analysisByBuildingType`. Their loops are
  methods proved equal to specification functions (`Filter`, `Tally`,
  `CityRows`, `Entries`). Lemmas then say what those functions count.
- `SurreyMeetingDetails`: the loop of `getMeetingDetails`. It attaches to each
  minutes item the first matching corporate report and the first matching
  planning report.
- `RezoningInputs`: the record input the city parsers build, and the rule that
  maps a status to its dates.
- `BurnabyBylaws`, `SurreyBylaws`, `RichmondPublicHearings`: the meeting
  classifiers, and the record building applied to a given AI response.

Shared vocabulary lives in `Wrappers` (`Option`, JavaScript truthiness),
`Dates`, `Text` (`includes`, ASCII `toLowerCase`, the `\s` class), `Seqs`
(filter, subsequence) and `Records` / `News` (the entities of
`src/models/Records.ts` and `src/models/News.ts`).

Outputs of calls into unseen or foreign code are parameters of the model:

- the records of `RecordsRepository.getRecords(type)` in the analytics;
- the items of `parseSurreyMeetingMinutes`;
- the ids of `findApplicationIDsFromTemplate`;
- the text of `parseCleanPDF`;
- the response of `AIGetPartialRecords`.

## Model

| member | source | states |
|---|---|---|
| Text.Contains | src/services/rezonings/cities/Surrey/Bylaws.ts:11-14 | `includes` is true iff the pattern occurs at some position of the string |
| Text.Lower | src/services/rezonings/cities/Surrey/Bylaws.ts:11-14 | the ASCII lower-casing keeps the length and lower-cases each character on its own |
| RecordsRepository.Query | src/repositories/RecordsRepository.ts:13-32 | `total` is the length of `data`; `data` is an order-preserving subsequence of the stored list; each record appears exactly as often as it is stored when it has the type and the city filter keeps it, and otherwise never |
| RecordsRepository.GetRezonings | src/repositories/RecordsRepository.ts:10-34 | exactly the stored rezonings that the city filter keeps, in stored order, with multiplicity; nothing of another type; no kept record is dropped; `total` is the length of `data` |
| RecordsRepository.GetDevelopmentPermits | src/repositories/RecordsRepository.ts:36-59 | the same as `GetRezonings`, for type development permit |
| RecordsRepository.RezoningsAndPermitsDisjoint | src/repositories/RecordsRepository.ts:38-42 | no record is returned by both queries, whatever the two city filters |
| RecordsRepository.OneCityKeepsThatCity | src/repositories/RecordsRepository.ts:17-27 | with a non-empty string filter, a record comes back iff it is a stored rezoning of that city |
| RecordsRepository.EmptyCityListKeepsNothing | src/repositories/RecordsRepository.ts:18-20 | an empty array is truthy and returns no records from either query |
| RecordsRepository.InactiveFilterKeepsAllOfType | src/repositories/RecordsRepository.ts:24-26 | a `null` or empty-string city applies no city filter: each query returns every stored record of its type, in order |
| RezoningsRepository.GetRezonings | src/repositories/RezoningsRepository.ts:73-92 | exactly the stored records of either type whose city the filter keeps, in order, with multiplicity; `total` is the length of `data` |
| RezoningsRepository.NoCityReturnsStored | src/repositories/RezoningsRepository.ts:83-86 | without a city filter, the stored list comes back unchanged and `total` is its length |
| RezoningsRepository.EmptyCityListKeepsNothing | src/repositories/RezoningsRepository.ts:77-79 | an empty array keeps nothing and `total` is 0 |
| RezoningsRepository.CityFilterMembership | src/repositories/RezoningsRepository.ts:77-82 | an array filter keeps a record iff its city is listed; a string filter keeps a record iff its city equals the string; no type filter applies |
| RawNewsOrder.NewestFirst | src/repositories/RawNewsRepository.ts:6-19 | the stable newest-first order keeps the length of its input |
| RawNewsOrder.NewestFirstPermutes | src/repositories/RawNewsRepository.ts:6-19 | the sorted list is a permutation of its input |
| RawNewsOrder.NewestFirstOrders | src/repositories/RawNewsRepository.ts:7-18 | no item is followed by a strictly newer one |
| RawNewsOrder.NewestFirstStable | src/repositories/RawNewsRepository.ts:17 | items with equal dates (the comparator answers 0) keep their relative input order |
| RawNewsOrder.ShiftOlder | src/repositories/RawNewsRepository.ts:7-18 | moves the sorted prefix's items that are strictly older than the key one place right and leaves a gap after the last item not older than it; nothing else changes |
| RawNewsOrder.InsertInPlace | src/repositories/RawNewsRepository.ts:7-18 | one insertion step turns the prefix into `Insert` of the old prefix and the new item; the rest of the array is unchanged |
| RawNewsOrder.ReorderItems | src/repositories/RawNewsRepository.ts:6-19 | sorting the array in place leaves it equal to `NewestFirst` of its old contents |
| RawNewsRepository.SliceIndex | src/repositories/RawNewsRepository.ts:40-44 | `slice` positions: a negative position counts from the end, and every position is clamped to the list |
| RawNewsRepository.Slice | src/repositories/RawNewsRepository.ts:40-44 | a slice is never longer than the list |
| RawNewsRepository.InDateWindow | src/repositories/RawNewsRepository.ts:31-37 | an order-preserving subsequence keeping each item, with multiplicity, iff `date >= startDate` (when given) and `date < endDate` (when given) |
| RawNewsRepository.Paginate | src/repositories/RawNewsRepository.ts:39-45 | a page is never longer than its input (its contents are stated by `PaginateWindow`, `PaginateNegativeLimit`, `PaginateZeroIgnored` and `PaginateIsSlice`) |
| RawNewsRepository.PaginateWindow | src/repositories/RawNewsRepository.ts:39-45 | with a positive limit and a non-negative offset, the page is items `offset` to `min(limit, length)`; the offset is counted inside the first `limit` items |
| RawNewsRepository.PaginateNegativeLimit | src/repositories/RawNewsRepository.ts:39-41 | a negative limit drops that many items from the end |
| RawNewsRepository.PaginateZeroIgnored | src/repositories/RawNewsRepository.ts:39-45 | a limit or offset of 0 is ignored like an absent one; with neither, the list is unchanged |
| RawNewsRepository.PaginateIsSlice | src/repositories/RawNewsRepository.ts:39-45 | a page is always a contiguous stretch of its input |
| RawNewsRepository.PageProperties | src/repositories/RawNewsRepository.ts:29-49 | a page is an order-preserving subsequence of the stored list, and each of its items meets the date bounds and, when the city is truthy, has that city; the city runs after pagination |
| RawNewsRepository.FindMatch | src/repositories/RawNewsRepository.ts:93-98 | a stored entry with the same city, date and meeting type, or none iff no stored entry has them |
| RawNewsRepository.Upserted | src/repositories/RawNewsRepository.ts:90-101 | the written list is at least as long as the stored one and at most as long as stored plus incoming (contents in `UpsertedContents`) |
| RawNewsRepository.UpsertedContents | src/repositories/RawNewsRepository.ts:90-101 | every stored entry is kept; an incoming item is added, as often as it comes, iff no stored entry has its city, date and meeting type; the result is newest first |
| RawNewsRepository.UpsertKeepsIncomingDuplicates | src/repositories/RawNewsRepository.ts:92-100 | incoming items are not compared with each other: two incoming items of the same new meeting are both added |
| RawNewsRepository.Replaced | src/repositories/RawNewsRepository.ts:70-81 | the written list holds at least the new items and at most the stored and the new items together (contents in `ReplacedContents`) |
| RawNewsRepository.ReplacedContents | src/repositories/RawNewsRepository.ts:70-81 | removes exactly the entries of the city that lie strictly between the range dates (all of the city's entries when no range is given); keeps every other entry; adds every new item; the result is newest first |
| RawNewsRepository.SortedCopy | src/repositories/RawNewsRepository.ts:81 | `reorderItems([...s])` returns `NewestFirst(s)` |
| RawNewsRepository.RawNewsStore.constructor | src/repositories/RawNewsRepository.ts:27 | the store starts with the contents of the file |
| RawNewsRepository.RawNewsStore.GetNews | src/repositories/RawNewsRepository.ts:25-58 | `offset` and `limit` are echoed; `total` is the size of the whole stored list; `data` is the window, then the page, then the city stage, and satisfies `PageProperties` |
| RawNewsRepository.RawNewsStore.UpsertNews | src/repositories/RawNewsRepository.ts:90-107 | the stored list becomes `Upserted` of the old one, which is newest first (see `UpsertedContents`) |
| RawNewsRepository.RawNewsStore.DangerouslyUpdateNews | src/repositories/RawNewsRepository.ts:70-87 | the stored list becomes `Replaced` of the old one, which is newest first (see `ReplacedContents`) |
| RawNewsRepository.RawNewsStore.DangerouslyUpdateAllNews | src/repositories/RawNewsRepository.ts:110-116 | sorts the caller's array in place, newest first, then stores it; the stored list is a permutation of the array's old contents |
| StringUtilities.IndexOf | src/utilities/StringUtilities.ts:12-14 | the first position at which a pattern occurs, or none iff it occurs nowhere |
| StringUtilities.ReplaceFirst | src/utilities/StringUtilities.ts:12-14 | `replace` with a string pattern rewrites only the first occurrence, and leaves the string unchanged when there is none |
| StringUtilities.TabReplaceRemovesOne | src/utilities/StringUtilities.ts:13 | the tab `replace` removes exactly one tab when there is one, keeping every other character and every later tab, and changes nothing otherwise |
| StringUtilities.ReplaceEscapes | src/utilities/StringUtilities.ts:12-14 | the three literal replacements never lengthen the text |
| StringUtilities.SplitLines | src/utilities/StringUtilities.ts:15 | `split('\n')` yields at least one piece, and no piece holds a newline |
| StringUtilities.JoinSplit | src/utilities/StringUtilities.ts:15-17 | `join('\n')` undoes `split('\n')` |
| StringUtilities.TrimStart | src/utilities/StringUtilities.ts:16 | drops leading white space only: the result is a suffix of the input that does not start with white space, and every dropped character is white space |
| StringUtilities.TrimStartKeepsText | src/utilities/StringUtilities.ts:16 | `trimStart` keeps every non-white-space character, in order |
| StringUtilities.TrimEnd | src/utilities/StringUtilities.ts:16 | drops trailing white space only: the result is a prefix of the input that does not end with white space, and every dropped character is white space |
| StringUtilities.TrimEndKeepsText | src/utilities/StringUtilities.ts:16 | `trimEnd` keeps every non-white-space character, in order |
| StringUtilities.Trim | src/utilities/StringUtilities.ts:16 | the trimmed line is a contiguous stretch of the input that neither starts nor ends with white space, and everything before and after that stretch is white space |
| StringUtilities.TrimKeepsText | src/utilities/StringUtilities.ts:16 | trimming keeps every non-white-space character of the line, in order |
| StringUtilities.CollapseSpaces | src/utilities/StringUtilities.ts:16 | `replace(/\s+/g, ' ')` never lengthens a line; what it produces is pinned by `CollapseRun` and `CollapseWords` |
| StringUtilities.CollapseSpacesKeepsText | src/utilities/StringUtilities.ts:16 | `replace(/\s+/g, ' ')` keeps every non-white-space character, in order |
| StringUtilities.CollapseSpacesShape | src/utilities/StringUtilities.ts:16 | after collapsing, no newline is left, every white-space character is a plain space, and no two are adjacent |
| StringUtilities.CollapseSpacesEnds | src/utilities/StringUtilities.ts:16 | collapsing keeps a non-space first or last character where it was, and an open run swallows leading white space |
| StringUtilities.SingleSpacedTidy | src/utilities/StringUtilities.ts:16 | a single-spaced line whose ends are not white space has every space between two non-space characters |
| StringUtilities.CleanLineTidy | src/utilities/StringUtilities.ts:16 | a cleaned line has no newline; each of its spaces is single, plain, and has a non-space on each side |
| StringUtilities.CleanLine | src/utilities/StringUtilities.ts:16 | the per-line step changes only white space: the non-white-space characters of the line are kept, in order; `CleanLineWords` pins the spacing |
| StringUtilities.Words | src/utilities/StringUtilities.ts:16 | the words of a line are its maximal runs of non-white-space characters, in order: each is non-empty and holds no white space |
| StringUtilities.WordsSkipSpace | src/utilities/StringUtilities.ts:16 | white space before the text separates no word: the words are unchanged |
| StringUtilities.WordsDropSpace | src/utilities/StringUtilities.ts:16 | white space after the text separates no word: the words are unchanged |
| StringUtilities.CollapseWord | src/utilities/StringUtilities.ts:16 | `replace(/\s+/g, ' ')` copies a run of non-white-space characters unchanged |
| StringUtilities.CollapseRun | src/utilities/StringUtilities.ts:16 | `replace(/\s+/g, ' ')` turns a whole run of white space into exactly one space |
| StringUtilities.CollapseWords | src/utilities/StringUtilities.ts:16 | a line whose ends are not white space becomes its words joined by single spaces |
| StringUtilities.CleanLineWords | src/utilities/StringUtilities.ts:16 | `line.trim().replace(/\s+/g, ' ')` is exactly the words of the line joined by single spaces, as `join(' ')` would |
| StringUtilities.CleanLineShorter | src/utilities/StringUtilities.ts:16 | a cleaned line is no longer than the original |
| StringUtilities.MapCleanLine | src/utilities/StringUtilities.ts:16 | `map` cleans each line in place, one output per input |
| StringUtilities.CollapseNewlines | src/utilities/StringUtilities.ts:18 | `replace(/\n+/g, '\n')` never lengthens the text |
| StringUtilities.CollapseNewlinesKeepsText | src/utilities/StringUtilities.ts:18 | collapsing newlines keeps every non-white-space character, in order |
| StringUtilities.JoinCleanKeepsText | src/utilities/StringUtilities.ts:15-17 | cleaning every line, then joining, keeps the non-white-space characters of the joined lines |
| StringUtilities.CollapseJoin | src/utilities/StringUtilities.ts:17-18 | joining newline-free lines, then collapsing newlines, drops exactly the empty lines that follow a newline |
| StringUtilities.JoinCollapsedOpen | src/utilities/StringUtilities.ts:17-18 | after a newline, joining newline-free lines and collapsing newlines keeps the non-empty lines separated by exactly one newline, plus one newline at the end when the last line is empty and some line is not |
| StringUtilities.JoinCollapsedLines | src/utilities/StringUtilities.ts:17-18 | from the start of the text, the same, plus one newline at the start when the first of several lines is empty |
| StringUtilities.JoinCollapsedShape | src/utilities/StringUtilities.ts:17-18 | that result has no two newlines in a row, and its spaces stay tidy |
| StringUtilities.JoinShorter | src/utilities/StringUtilities.ts:15-17 | cleaning the lines never lengthens the joined text |
| StringUtilities.CleanString | src/utilities/StringUtilities.ts:9-20 | for truthy content, the output holds exactly the non-white-space characters of the text after the three literal replacements, in order |
| StringUtilities.CleanStringLines | src/utilities/StringUtilities.ts:9-20 | for truthy content, the output is the cleaned lines joined by newlines, less every empty line that follows a newline |
| StringUtilities.CleanStringWords | src/utilities/StringUtilities.ts:9-20 | for truthy content, every line of the text becomes its words joined by single spaces, and the non-empty results are joined by exactly one newline; one newline stays at the start when the first of several lines has no word, and one at the end when the last line has no word and some line has one |
| StringUtilities.CleanStringShape | src/utilities/StringUtilities.ts:9-20 | `''` for `null` or `''`; never two newlines in a row; every line trimmed and single-spaced; no tab or carriage return left; never longer than the input |
| Analytics.YearsMembers | src/services/analytics/index.ts:101 | a year is listed iff some record's chosen date field lies in it |
| Analytics.Min | src/services/analytics/index.ts:102 | `Math.min` is an element of the list and no greater than any element |
| Analytics.Max | src/services/analytics/index.ts:103 | `Math.max` is an element of the list and no smaller than any element |
| Analytics.GroupByYear | src/services/analytics/index.ts:100-109 | no keys when no record is dated; otherwise a key for every year from the earliest to the latest dated record, inclusive, each holding exactly that year's records in order (empty for gap years) |
| Analytics.GroupPlacement | src/services/analytics/index.ts:101-106 | a dated record's year lies in the key range, and the record is in that year's group; a record is in a group only if dated in that year, so an undated record is in none |
| Analytics.NoDatesNoYears | src/services/analytics/index.ts:101-105 | there are no years iff no record has the chosen date field |
| Analytics.BumpCount | src/services/analytics/index.ts:84-85 | one increment raises its building type's counter and `total` by one each, and keeps `total` the sum of the counters |
| Analytics.TallyCount | src/services/analytics/index.ts:82-86 | each building-type counter counts the group's records with that type, the city and the requested status |
| Analytics.TallyTotal | src/services/analytics/index.ts:82-86 | `total` counts the group's records of the city and status that have any building type |
| Analytics.TallyBalanced | src/services/analytics/index.ts:84-85 | `total` is the sum of the seven counters |
| Analytics.CitiesMembers | src/services/analytics/index.ts:60 | a city is listed iff some record is in it |
| Analytics.CitiesDistinct | src/services/analytics/index.ts:60 | no city is listed twice |
| Analytics.CityRows | src/services/analytics/index.ts:71-88 | one entry per city |
| Analytics.CityRowsIndex | src/services/analytics/index.ts:71-88 | entry `i` is city `i` with its counters over the group |
| Analytics.Entries | src/services/analytics/index.ts:62-90 | one entry per year from `lo` to `hi`, inclusive |
| Analytics.EntriesIndex | src/services/analytics/index.ts:62-90 | entry `k` is year `lo + k`, in ascending order, with every city's counters over that year's group |
| Analytics.CountCity | src/services/analytics/index.ts:82-87 | the inner loop computes `Tally` of the group for the city and status |
| Analytics.YearCounts | src/services/analytics/index.ts:71-88 | the city loop builds `CityRows` |
| Analytics.YearsLoop | src/services/analytics/index.ts:62-90 | the year loop over the grouped records builds `Entries` from `lo` to `hi` |
| Analytics.AnalysisByBuildingType | src/services/analytics/index.ts:51-92 | empty data when no record has the status's date field; otherwise the entries of every year from the earliest to the latest dated record |
| Analytics.EntriesCounts | src/services/analytics/index.ts:60-90 | every year's entry lists every city of the records once, in first-seen order; each counter counts that year's records of the city, status and building type; `total` counts those with any building type and equals the sum of the seven |
| SurreyMeetingDetails.ColonIndex | src/services/raw-news/cities/Surrey/GetMeetingDetails.ts:32 | the end of the lazy match of `/^(.*?):/`: the first `:` with no line terminator before it, or none iff no such `:` exists |
| SurreyMeetingDetails.ReportId | src/services/raw-news/cities/Surrey/GetMeetingDetails.ts:32 | a report id exists iff the match has a non-empty prefix; the id is exactly that prefix |
| SurreyMeetingDetails.ReportIdShape | src/services/raw-news/cities/Surrey/GetMeetingDetails.ts:32-33 | a report id is non-empty and contains no `:` |
| SurreyMeetingDetails.PlanningIds | src/services/raw-news/cities/Surrey/GetMeetingDetails.ts:44 | every id found has the form `\d{4}-\d{4}-\d{2}` and occurs in the title; there are at most as many ids as whole twelve-character stretches of the title |
| SurreyMeetingDetails.PlanningIdsLeftmost | src/services/raw-news/cities/Surrey/GetMeetingDetails.ts:44 | the ids are exactly the leftmost non-overlapping matches in the title, left to right: each starts at the first position where an id starts, the search resuming after its end, and no id starts after the last one |
| SurreyMeetingDetails.LeftmostIdsUnique | src/services/raw-news/cities/Surrey/GetMeetingDetails.ts:44 | a title has only one list of leftmost non-overlapping matches, so `PlanningIdsLeftmost` determines the list |
| SurreyMeetingDetails.PlanningIdsEmpty | src/services/raw-news/cities/Surrey/GetMeetingDetails.ts:44-45 | no id is found iff no `\d{4}-\d{4}-\d{2}` occurs in the title |
| SurreyMeetingDetails.FirstMatch | src/services/raw-news/cities/Surrey/GetMeetingDetails.ts:30-38 | `.some` stops at the first report that passes; it passes none of the earlier ones; none is found iff no report passes |
| SurreyMeetingDetails.FindReport | src/services/raw-news/cities/Surrey/GetMeetingDetails.ts:26-50 | the search loop returns `FirstMatch` |
| SurreyMeetingDetails.Links | src/services/raw-news/cities/Surrey/GetMeetingDetails.ts:62-67 | each link keeps only the title and url of its report, one per report, in order |
| SurreyMeetingDetails.ItemNews | src/services/raw-news/cities/Surrey/GetMeetingDetails.ts:52-67 | the raw news of one item links at most two reports, one per search (its fields are stated by `ItemNewsShape`) |
| SurreyMeetingDetails.MatchItem | src/services/raw-news/cities/Surrey/GetMeetingDetails.ts:23-68 | the loop body: both searches, then the raw news of the item, equal to `ItemNews` |
| SurreyMeetingDetails.AllNews | src/services/raw-news/cities/Surrey/GetMeetingDetails.ts:17-72 | one raw news per item |
| SurreyMeetingDetails.AllNewsIndex | src/services/raw-news/cities/Surrey/GetMeetingDetails.ts:21-68 | result `k` is the `ItemNews` of item `k`, so results follow item order |
| SurreyMeetingDetails.GetMeetingDetails | src/services/raw-news/cities/Surrey/GetMeetingDetails.ts:15-74 | the loop returns `AllNews` of the parsed items: one raw news per item, in item order |
| SurreyMeetingDetails.ItemNewsShape | src/services/raw-news/cities/Surrey/GetMeetingDetails.ts:21-68 | Surrey, Metro Vancouver, meeting url as url and minutes url, the given date and meeting type, the item's fields; exactly one link per search that found a report, so at most two; first the earliest listed corporate report dated on or before the meeting whose id the content includes; last the earliest listed planning report one of whose ids the content includes; no links iff neither exists |
| RezoningInputs.DecisionDatesShape | src/services/rezonings/cities/Burnaby/Bylaws.ts:71-77 | applied and public-hearing dates are never set; each of the approval, denial and withdrawn dates is set iff the status is that decision, and then to the news date |
| RezoningInputs.Summaries | src/services/rezonings/cities/Burnaby/Bylaws.ts:62-69 | one summary per summary of the AI record |
| RezoningInputs.ReportUrls | src/services/rezonings/cities/Burnaby/Bylaws.ts:79-86 | one entry per report link of the news |
| RezoningInputs.BuiltFromParts | src/services/rezonings/cities/Burnaby/Bylaws.ts:53-91 | a record built with `Summaries`, `ReportUrls` and `MinutesUrls` copies the AI record's fields; every summary, report url and minutes url carries the news date and the status; there is one minutes url iff the news has a minutes url |
| BurnabyBylaws.CouncilMeetingSubsumed | src/services/rezonings/cities/Burnaby/Bylaws.ts:11 | containing `'City Council Meeting'` implies containing `'City Council'` |
| BurnabyBylaws.CheckIfBylaw | src/services/rezonings/cities/Burnaby/Bylaws.ts:9-17 | true iff the city is exactly Burnaby; the meeting type contains `'City Council'` (case-sensitive); and the lower-cased title contains `'final adoption'` or `'abandonment'`, plus `'zoning bylaw'` and `'rez'` |
| BurnabyBylaws.ParseBylaw | src/services/rezonings/cities/Burnaby/Bylaws.ts:20-102 | records come out only when an id was found and the AI answered, and never more than the AI gave |
| BurnabyBylaws.ParseBylawEmpty | src/services/rezonings/cities/Burnaby/Bylaws.ts:20-102 | no records iff no truthy first id was found, the AI gave nothing, no AI record has an application id, or a summary needs the first report url of a news item without reports (the caught `TypeError`) |
| BurnabyBylaws.ParseBylawRecords | src/services/rezonings/cities/Burnaby/Bylaws.ts:49-91 | one record per AI record with an application id, in order: Burnaby; a truthy application id; no building type and no zoning, which the source does not pass on; the status's decision dates; the summaries, report urls and minutes urls as `BuiltFromParts` says; each summary's report url is the first report url |
| SurreyBylaws.CheckIfBylaw | src/services/rezonings/cities/Surrey/Bylaws.ts:8-18 | true iff an id was found; the lower-cased title contains `'bylaws and permits'` and not `'land use application'`; and the lower-cased contents contain `'amendment bylaw'` and not `'reading'` |
| SurreyBylaws.ParseBylaw | src/services/rezonings/cities/Surrey/Bylaws.ts:20-90 | records come out only when an id was found and the AI answered, and then one per AI record |
| SurreyBylaws.ParseBylawEmpty | src/services/rezonings/cities/Surrey/Bylaws.ts:20-44 | no records iff no id was found or the AI gave nothing |
| SurreyBylaws.ParseBylawRecords | src/services/rezonings/cities/Surrey/Bylaws.ts:46-90 | one record per AI record, in order, none dropped: Surrey; the AI record's building type and zoning; the status's decision dates; no report url on any summary; report urls and minutes urls as `BuiltFromParts` says |
| RichmondPublicHearings.CheckIfPublicHearing | src/services/rezonings/cities/Richmond/PublicHearings.ts:9-14 | true iff the city is exactly Richmond, the meeting type is exactly `'Public Hearing Minutes'` and the news has a report; `ParsePublicHearingEmpty` ties it to the parser |
| RichmondPublicHearings.ParsePublicHearing | src/services/rezonings/cities/Richmond/PublicHearings.ts:16-93 | records come out only when the news has a report, the PDF text is truthy, an id was found and the AI answered, and then one per AI record |
| RichmondPublicHearings.ParsePublicHearingEmpty | src/services/rezonings/cities/Richmond/PublicHearings.ts:9-46 | no records iff the news has no report (the caught `TypeError`), the PDF text is falsy, no id was found, or the AI gave nothing; news accepted by `checkIfPublicHearing` always has a report |
| RichmondPublicHearings.ParsePublicHearingRecords | src/services/rezonings/cities/Richmond/PublicHearings.ts:48-93 | one record per AI record, in order: Richmond; status public hearing; only `publicHearingDate` set, to the news date; the AI record's building type and zoning; each summary's report url is the first report url; report urls and minutes urls carry the news date and the public-hearing status |

## Left out

- The record reconciliation engine is not part of this model. This covers `FullRecord`, `upsertRecords`, merging and tiers. No file modelled here implements it, so the parsers produce the input object they hand to the `FullRecord` constructor (`RezoningInputs.RecordInput`).
- Scraping, PDF parsing, AI calls and geocoding are foreign asynchronous calls. Their results are parameters: the parsed minutes items, the PDF text, the AI response, and the ids `findApplicationIDsFromTemplate` finds.
- `findApplicationIDsFromTemplate` (src/utilities/RegexUtilities) is not part of this model. Its ids are a parameter. In `SurreyBylaws` the same list feeds both the classifier and the parser.
- An exception thrown by an AI or PDF call is caught by the source and yields `[]`. The model covers only the `TypeError` that its own data can cause (`news.reportUrls[0]` on an empty list). `ErrorsRepository.addError` and the console logging in the `catch` blocks are left out.
- `formatDateString` is left out because it depends on JavaScript `Date` and time-zone parsing. Dates are well-formed `YYYY-MM-DD` values, compared in calendar order; for them `moment` comparison agrees with `Dates.Before`.
- Analytics.GroupByYear: takes every year to be written with exactly four digits, from 1000 to 9999, where `split('-')[0]` and `year.toString()` spell the same number. The source places a record dated `0999-…` in no group, because it compares the string `'0999'` with `(999).toString()`, that is `'999'`; the model, whose `Date.year` is an unbounded integer, places it in the group of year 999.
- RawNewsRepository.Paginate: `limit` and `offset` are taken to be integers. A fractional JavaScript number passed to `slice` is truncated toward zero first (`slice(0, 2.5)` acts as `slice(0, 2)`), which the model does not capture.
- The `fs` reads and writes of RawNewsRepository are left out. Reading the JSON file is reading `RawNewsStore.items`, and writing it is assigning that field.
- `getLatestDate` is left out, and so is the `this.getNews()` call inside the writers. Called with no argument, `getNews()` throws a `TypeError` when it reads `filter.offset` for its result. Called with a filter, it returns an object holding the list, not the list itself. The writers work on the stored list directly.
- RawNewsRepository.RawNewsStore.DangerouslyUpdateAllNews: does not return the trailing `this.getNews()`, for the same reason.
- `toLowerCase` is modelled for ASCII letters only. `trim` and `\s` use the ECMAScript white-space and line-terminator characters as a fixed set.
- `groupByYear`'s `parseInt` on malformed year strings (NaN) is left out, because dates are well formed. Its keys are years as integers, not the strings JavaScript uses. `for...in` enumerates integer-like keys in ascending order, so the entries are listed in ascending year order.
- Each year's city object is an ordered list of entries (`Analytics.CityEntry`), because JavaScript enumerates string keys in insertion order. A city whose name is itself an integer-like string would be enumerated first in JavaScript; the model does not capture that.
- A `buildingType` or `status` that the AI leaves out and one it sets to `null` are both `None`. The AI's `zoning` object is assumed always present, as the record type declares it non-null, so Surrey and Richmond always pass one on. Numbers are unbounded integers.
- The non-null assertion `record.status!` is a compile-time cast with no effect at run time. A missing status therefore flows through as `None` and sets no decision date.
- In `getMeetingDetails`, the date `filter` followed by `.some` over corporate reports is modelled as one search with the combined test. `.some` stops at the first element that passes, so the result is the same.

