/** The record shapes of models/Records.ts (and the identical copy in
    repositories/RezoningsRepository.ts). */
module Records {
  import opened Wrappers
  import opened Dates

  datatype RecordType = Rezoning | DevelopmentPermit

  /** The six `ZoningType` strings, plus `'other'`, the seventh building type
      the analytics counters carry. */
  datatype BuildingType =
    | SingleFamilyResidential
    | Townhouse
    | MixedUse
    | MultiFamilyResidential
    | Industrial
    | Commercial
    | Other

  datatype ZoningStatus = Applied | Pending | PublicHearing | Approved | Denied | Withdrawn

  datatype Stats = Stats(
    buildings: Option<int>,
    stratas: Option<int>,
    rentals: Option<int>,
    hotels: Option<int>,
    fsr: Option<real>,
    height: Option<real>)

  datatype Zoning = Zoning(
    previousZoningCode: Option<string>,
    previousZoningDescription: Option<string>,
    newZoningCode: Option<string>,
    newZoningDescription: Option<string>)

  datatype RecordDates = RecordDates(
    appliedDate: Option<Date>,
    publicHearingDate: Option<Date>,
    approvalDate: Option<Date>,
    denialDate: Option<Date>,
    withdrawnDate: Option<Date>)

  datatype ReportUrl = ReportUrl(title: string, url: string, date: Date, status: ZoningStatus)

  datatype MinutesUrl = MinutesUrl(url: string, date: Date, status: ZoningStatus)

  /** `IFullRecordDetail`; the source's `type` field is `recordType` here. */
  datatype Record = Record(
    id: string,
    city: string,
    metroCity: Option<string>,
    applicationId: Option<string>,
    address: string,
    applicant: Option<string>,
    behalf: Option<string>,
    description: string,
    recordType: RecordType,
    buildingType: Option<BuildingType>,
    stats: Stats,
    zoning: Zoning,
    status: ZoningStatus,
    dates: RecordDates,
    reportUrls: seq<ReportUrl>,
    minutesUrls: seq<MinutesUrl>,
    createDate: Date,
    updateDate: Date)

  /** The `city` member of `IRecordsFilter` / `IRezoningsFilter`:
      `string[] | string | null`. */
  datatype CityFilter = NoCity | OneCity(name: string) | CityList(names: seq<string>)

  /** JavaScript truthiness of `filter.city`: `null` and `''` are falsy, every
      array (the empty one too) is truthy. */
  predicate IsActive(f: CityFilter)
  {
    match f
    case NoCity => false
    case OneCity(name) => name != ""
    case CityList(_) => true
  }

  /** The city callback of the repositories' second `.filter`. */
  predicate Keeps(f: CityFilter, city: string)
  {
    if IsActive(f) then
      if f.CityList? then city in f.names else city == f.name
    else true
  }
}
