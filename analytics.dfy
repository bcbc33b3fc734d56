/** services/analytics/index.ts: `groupByYear` and
    `AnalyticsService.analysisByBuildingType`, over the records the unseen
    `RecordsRepository.getRecords(type)` returns (here the parameter `records`). */
module Analytics {
  import opened Wrappers
  import opened Dates
  import opened Seqs
  import opened Records

  /** The `status` argument: `'applied' | 'approved'`. */
  datatype RequestedStatus = RequestApplied | RequestApproved

  /** `RecordDateField`. */
  datatype DateField = AppliedDate | PublicHearingDate | ApprovalDate | DenialDate | WithdrawnDate

  /** `statusMapping`: applied records are grouped by `appliedDate`, approved
      ones by `approvalDate`. */
  function FieldFor(status: RequestedStatus): DateField
  {
    match status
    case RequestApplied => AppliedDate
    case RequestApproved => ApprovalDate
  }

  /** The `ZoningStatus` string the requested status compares equal to. */
  function AsZoningStatus(status: RequestedStatus): ZoningStatus
  {
    match status
    case RequestApplied => Applied
    case RequestApproved => Approved
  }

  /** `record.dates[dateField]`. */
  function DateOf(r: Record, f: DateField): Option<Date>
  {
    match f
    case AppliedDate => r.dates.appliedDate
    case PublicHearingDate => r.dates.publicHearingDate
    case ApprovalDate => r.dates.approvalDate
    case DenialDate => r.dates.denialDate
    case WithdrawnDate => r.dates.withdrawnDate
  }

  /** `record.dates[dateField]?.split('-')[0]`, read as a year number. */
  function YearOf(r: Record, f: DateField): Option<int>
  {
    match DateOf(r, f)
    case None => None
    case Some(d) => Some(d.year)
  }

  /** `years` of `groupByYear`: the year of every dated record, in record order. */
  function Years(records: seq<Record>, f: DateField): seq<int>
  {
    if records == [] then []
    else
      var rest := Years(records[1..], f);
      match YearOf(records[0], f)
      case None => rest
      case Some(y) => [y] + rest
  }

  /** A year is listed exactly when some record is dated in it. */
  lemma {:induction false} YearsMembers(records: seq<Record>, f: DateField, y: int)
    ensures y in Years(records, f) <==> exists x :: x in records && YearOf(x, f) == Some(y)
  {
    if records != [] {
      YearsMembers(records[1..], f, y);
      assert forall x :: x in records <==> x == records[0] || x in records[1..] by {
        assert records == [records[0]] + records[1..];
      }
    }
  }

  /** `Math.min(...years)` of a non-empty list. */
  function Min(s: seq<int>): (m: int)
    requires s != []
    ensures m in s && forall y :: y in s ==> m <= y
  {
    if |s| == 1 then s[0]
    else
      var m := Min(s[1..]);
      assert forall y :: y in s ==> y == s[0] || y in s[1..] by { assert s == [s[0]] + s[1..]; }
      if s[0] <= m then s[0] else m
  }

  /** `Math.max(...years)` of a non-empty list. */
  function Max(s: seq<int>): (m: int)
    requires s != []
    ensures m in s && forall y :: y in s ==> y <= m
  {
    if |s| == 1 then s[0]
    else
      var m := Max(s[1..]);
      assert forall y :: y in s ==> y == s[0] || y in s[1..] by { assert s == [s[0]] + s[1..]; }
      if s[0] >= m then s[0] else m
  }

  /** The callback of the `filter` that fills one year's group. */
  function InYear(f: DateField, y: int): Record -> bool
  {
    (x: Record) => YearOf(x, f) == Some(y)
  }

  /** `groupByYear(records, dateField)`: one key for every year from the
      earliest to the latest dated record, each holding the records dated that
      year, in record order; no keys at all when nothing is dated. */
  method GroupByYear(records: seq<Record>, f: DateField) returns (groups: map<int, seq<Record>>)
    ensures Years(records, f) == [] ==> groups == map[]
    ensures Years(records, f) != [] ==>
              forall y :: y in groups <==> Min(Years(records, f)) <= y <= Max(Years(records, f))
    ensures forall y :: y in groups ==> groups[y] == Filter(records, InYear(f, y))
  {
    var years := Years(records, f);
    groups := map[];
    if years != [] {
      var minYear, maxYear := Min(years), Max(years);
      var year := minYear;
      while year <= maxYear
        invariant minYear <= year <= maxYear + 1
        invariant forall y :: y in groups <==> minYear <= y < year
        invariant forall y :: y in groups ==> groups[y] == Filter(records, InYear(f, y))
      {
        groups := groups[year := Filter(records, InYear(f, year))];
        year := year + 1;
      }
    }
  }

  /** A dated record lies in the year range and in the group of its own year
      only; an undated record is in no group. */
  lemma {:induction false} GroupPlacement(records: seq<Record>, f: DateField, r: Record)
    requires r in records
    ensures YearOf(r, f).Some? ==>
              var y := YearOf(r, f).value;
              Years(records, f) != []
              && Min(Years(records, f)) <= y <= Max(Years(records, f))
              && r in Filter(records, InYear(f, y))
    ensures forall y :: r in Filter(records, InYear(f, y)) ==> YearOf(r, f) == Some(y)
  {
    if YearOf(r, f).Some? {
      var y := YearOf(r, f).value;
      YearsMembers(records, f, y);
      FilterCount(records, InYear(f, y), r);
      assert multiset(records)[r] > 0;
    }
  }

  /** No record has the chosen date field exactly when there are no years, and
      then `groupByYear` has no keys. */
  lemma {:induction false} NoDatesNoYears(records: seq<Record>, f: DateField)
    ensures Years(records, f) == [] <==> forall x :: x in records ==> DateOf(x, f).None?
  {
    if Years(records, f) != [] {
      var y := Years(records, f)[0];
      YearsMembers(records, f, y);
    } else {
      forall x | x in records
        ensures DateOf(x, f).None?
      {
        if DateOf(x, f).Some? {
          YearsMembers(records, f, DateOf(x, f).value.year);
        }
      }
    }
  }

  // ---------------------------------------------------------------------------
  // analysisByBuildingType

  /** One city's counters: the seven building-type keys and `total`. */
  datatype Counts = Counts(
    singleFamily: nat,
    multiFamily: nat,
    townhouse: nat,
    mixedUse: nat,
    commercial: nat,
    industrial: nat,
    other: nat,
    total: nat)

  const Zero := Counts(0, 0, 0, 0, 0, 0, 0, 0)

  /** The counter for one building type. */
  function Count(c: Counts, bt: BuildingType): nat
  {
    match bt
    case SingleFamilyResidential => c.singleFamily
    case MultiFamilyResidential => c.multiFamily
    case Townhouse => c.townhouse
    case MixedUse => c.mixedUse
    case Commercial => c.commercial
    case Industrial => c.industrial
    case Other => c.other
  }

  /** `yearData.data[city][record.buildingType]++` and `yearData.data[city]['total']++`. */
  function Bump(c: Counts, bt: BuildingType): Counts
  {
    match bt
    case SingleFamilyResidential => c.(singleFamily := c.singleFamily + 1, total := c.total + 1)
    case MultiFamilyResidential => c.(multiFamily := c.multiFamily + 1, total := c.total + 1)
    case Townhouse => c.(townhouse := c.townhouse + 1, total := c.total + 1)
    case MixedUse => c.(mixedUse := c.mixedUse + 1, total := c.total + 1)
    case Commercial => c.(commercial := c.commercial + 1, total := c.total + 1)
    case Industrial => c.(industrial := c.industrial + 1, total := c.total + 1)
    case Other => c.(other := c.other + 1, total := c.total + 1)
  }

  /** `total` is the sum of the seven building-type counters. */
  predicate Balanced(c: Counts)
  {
    c.total == c.singleFamily + c.multiFamily + c.townhouse + c.mixedUse
               + c.commercial + c.industrial + c.other
  }

  /** The condition under which a record is counted for a city. */
  predicate IsCounted(r: Record, city: string, status: ZoningStatus)
  {
    r.buildingType.Some? && r.city == city && r.status == status
  }

  /** The counters the innermost loop reaches after the records of `group`. */
  function Tally(group: seq<Record>, city: string, status: ZoningStatus): Counts
  {
    if group == [] then Zero
    else
      var c := Tally(group[..|group| - 1], city, status);
      var r := group[|group| - 1];
      if IsCounted(r, city, status) then Bump(c, r.buildingType.value) else c
  }

  function CountedAs(city: string, status: ZoningStatus, bt: BuildingType): Record -> bool
  {
    (r: Record) => r.buildingType == Some(bt) && r.city == city && r.status == status
  }

  function CountedFor(city: string, status: ZoningStatus): Record -> bool
  {
    (r: Record) => IsCounted(r, city, status)
  }

  lemma FilterLast<T>(s: seq<T>, p: T -> bool)
    requires s != []
    ensures |Filter(s, p)| == |Filter(s[..|s| - 1], p)| + (if p(s[|s| - 1]) then 1 else 0)
  {
    var init, last := s[..|s| - 1], s[|s| - 1];
    assert s == init + [last];
    FilterAppend(init, [last], p);
    assert Filter([last], p) == (if p(last) then [last] else []) by {
      assert [last][1..] == [];
    }
  }

  lemma BumpCount(c: Counts, b: BuildingType, bt: BuildingType)
    ensures Count(Bump(c, b), bt) == Count(c, bt) + (if b == bt then 1 else 0)
    ensures Bump(c, b).total == c.total + 1
    ensures Balanced(c) ==> Balanced(Bump(c, b))
  {
  }

  /** Each building-type counter counts the records of the city and status
      that carry that building type. */
  lemma {:induction false} TallyCount(group: seq<Record>, city: string, status: ZoningStatus, bt: BuildingType)
    ensures Count(Tally(group, city, status), bt) == |Filter(group, CountedAs(city, status, bt))|
  {
    if group != [] {
      var init, last := group[..|group| - 1], group[|group| - 1];
      TallyCount(init, city, status, bt);
      FilterLast(group, CountedAs(city, status, bt));
      if IsCounted(last, city, status) {
        BumpCount(Tally(init, city, status), last.buildingType.value, bt);
      }
    }
  }

  /** `total` counts every record of the city and status that has a building type. */
  lemma {:induction false} TallyTotal(group: seq<Record>, city: string, status: ZoningStatus)
    ensures Tally(group, city, status).total == |Filter(group, CountedFor(city, status))|
  {
    if group != [] {
      var init, last := group[..|group| - 1], group[|group| - 1];
      TallyTotal(init, city, status);
      FilterLast(group, CountedFor(city, status));
      if IsCounted(last, city, status) {
        BumpCount(Tally(init, city, status), last.buildingType.value, Other);
      }
    }
  }

  /** `total` is always the sum of the seven building-type counters. */
  lemma {:induction false} TallyBalanced(group: seq<Record>, city: string, status: ZoningStatus)
    ensures Balanced(Tally(group, city, status))
  {
    if group != [] {
      var init, last := group[..|group| - 1], group[|group| - 1];
      TallyBalanced(init, city, status);
      if IsCounted(last, city, status) {
        BumpCount(Tally(init, city, status), last.buildingType.value, Other);
      }
    }
  }

  /** `Array.from(new Set(records.map((record) => record.city)))`: each city once,
      in order of first appearance. */
  function Cities(records: seq<Record>): seq<string>
  {
    if records == [] then []
    else
      var rest := Cities(records[..|records| - 1]);
      var last := records[|records| - 1];
      if last.city in rest then rest else rest + [last.city]
  }

  /** A city is listed exactly when some record is in it. */
  lemma {:induction false} CitiesMembers(records: seq<Record>, c: string)
    ensures c in Cities(records) <==> exists x :: x in records && x.city == c
  {
    if records != [] {
      var init, last := records[..|records| - 1], records[|records| - 1];
      CitiesMembers(init, c);
      assert forall x :: x in records <==> x in init || x == last by {
        assert records == init + [last];
      }
    }
  }

  /** No city is listed twice. */
  lemma {:induction false} CitiesDistinct(records: seq<Record>)
    ensures forall i, j :: 0 <= i < j < |Cities(records)| ==> Cities(records)[i] != Cities(records)[j]
  {
    if records != [] {
      CitiesDistinct(records[..|records| - 1]);
    }
  }

  /** One key of a year's object: a city and its counters. JavaScript keeps
      string keys in insertion order, so the object is a list of entries. */
  datatype CityEntry = CityEntry(city: string, counts: Counts)

  /** One element of the result: `{ year, data }`. */
  datatype YearEntry = YearEntry(year: int, data: seq<CityEntry>)

  /** The object the loop over the cities fills for one year's group: the
      cities of `cities`, in turn, each with its counters. */
  function CityRows(cities: seq<string>, group: seq<Record>, wanted: ZoningStatus): (r: seq<CityEntry>)
    ensures |r| == |cities|
  {
    if cities == [] then []
    else
      var last := cities[|cities| - 1];
      CityRows(cities[..|cities| - 1], group, wanted) + [CityEntry(last, Tally(group, last, wanted))]
  }

  /** Entry `i` of the object is city `i` with its counters. */
  lemma {:induction false} CityRowsIndex(cities: seq<string>, group: seq<Record>, wanted: ZoningStatus, i: int)
    requires 0 <= i < |cities|
    ensures CityRows(cities, group, wanted)[i] == CityEntry(cities[i], Tally(group, cities[i], wanted))
  {
    if i < |cities| - 1 {
      var init := cities[..|cities| - 1];
      CityRowsIndex(init, group, wanted, i);
      assert CityRows(cities, group, wanted)[i] == CityRows(init, group, wanted)[i];
    }
  }

  /** The counters of every city of the records over the group of year `y`. */
  function YearRows(records: seq<Record>, status: RequestedStatus, y: int): seq<CityEntry>
  {
    CityRows(Cities(records), Filter(records, InYear(FieldFor(status), y)), AsZoningStatus(status))
  }

  /** The earliest and the latest year of the dated records. */
  function Lo(records: seq<Record>, status: RequestedStatus): int
    requires Years(records, FieldFor(status)) != []
  {
    Min(Years(records, FieldFor(status)))
  }

  function Hi(records: seq<Record>, status: RequestedStatus): int
    requires Years(records, FieldFor(status)) != []
  {
    Max(Years(records, FieldFor(status)))
  }

  /** The entries of the years from `lo` to `hi`, in ascending year order (the
      order in which JavaScript enumerates integer-like keys), as the loop over
      the years appends them. */
  function Entries(records: seq<Record>, status: RequestedStatus, lo: int, hi: int): (r: seq<YearEntry>)
    ensures |r| == if hi < lo then 0 else hi - lo + 1
    decreases hi - lo
  {
    if hi < lo then []
    else Entries(records, status, lo, hi - 1) + [YearEntry(hi, YearRows(records, status, hi))]
  }

  /** Entry `k` is year `lo + k` with the counters of every city over that
      year's group. */
  lemma {:induction false} EntriesIndex(records: seq<Record>, status: RequestedStatus, lo: int, hi: int, k: int)
    requires 0 <= k <= hi - lo
    ensures Entries(records, status, lo, hi)[k] == YearEntry(lo + k, YearRows(records, status, lo + k))
    decreases hi - lo
  {
    var prev := Entries(records, status, lo, hi - 1);
    assert Entries(records, status, lo, hi) == prev + [YearEntry(hi, YearRows(records, status, hi))];
    if k < hi - lo {
      EntriesIndex(records, status, lo, hi - 1, k);
    }
  }

  /** The innermost loop of `analysisByBuildingType`: one city's counters
      over one year's group. */
  method CountCity(group: seq<Record>, city: string, wanted: ZoningStatus) returns (counts: Counts)
    ensures counts == Tally(group, city, wanted)
  {
    counts := Zero;
    var k := 0;
    while k < |group|
      invariant 0 <= k <= |group|
      invariant counts == Tally(group[..k], city, wanted)
    {
      var record := group[k];
      assert group[..k + 1][..k] == group[..k];
      if record.buildingType.Some? && record.city == city && record.status == wanted {
        counts := Bump(counts, record.buildingType.value);
      }
      k := k + 1;
    }
    assert group[..|group|] == group;
  }

  /** The loop over the cities of `analysisByBuildingType` for one year. */
  method YearCounts(group: seq<Record>, cities: seq<string>, wanted: ZoningStatus) returns (yearData: seq<CityEntry>)
    ensures yearData == CityRows(cities, group, wanted)
  {
    yearData := [];
    var ci := 0;
    while ci < |cities|
      invariant 0 <= ci <= |cities|
      invariant yearData == CityRows(cities[..ci], group, wanted)
    {
      var city := cities[ci];
      var counts := CountCity(group, city, wanted);
      assert cities[..ci + 1][..ci] == cities[..ci];
      yearData := yearData + [CityEntry(city, counts)];
      ci := ci + 1;
    }
    assert cities[..|cities|] == cities;
  }

  /** The loop over the years of `analysisByBuildingType`, from `lo` to `hi`. */
  method YearsLoop(records: seq<Record>, status: RequestedStatus, groupedRecords: map<int, seq<Record>>,
                   cities: seq<string>, lo: int, hi: int) returns (data: seq<YearEntry>)
    requires cities == Cities(records)
    requires lo <= hi
    requires forall y :: lo <= y <= hi ==> y in groupedRecords
    requires forall y :: y in groupedRecords ==> groupedRecords[y] == Filter(records, InYear(FieldFor(status), y))
    ensures data == Entries(records, status, lo, hi)
  {
    data := [];
    var year := lo;
    while year <= hi
      invariant lo <= year <= hi + 1
      invariant data == Entries(records, status, lo, year - 1)
    {
      var yearData := YearCounts(groupedRecords[year], cities, AsZoningStatus(status));
      data := data + [YearEntry(year, yearData)];
      year := year + 1;
    }
  }

  /** `analysisByBuildingType(type, status)` on the records of `type`. */
  method AnalysisByBuildingType(records: seq<Record>, status: RequestedStatus) returns (data: seq<YearEntry>)
    ensures Years(records, FieldFor(status)) == [] ==> data == []
    ensures Years(records, FieldFor(status)) != [] ==> data == Entries(records, status, Lo(records, status), Hi(records, status))
  {
    var groupedRecords := GroupByYear(records, FieldFor(status));
    var cities := Cities(records);
    data := [];
    if Years(records, FieldFor(status)) != [] {
      data := YearsLoop(records, status, groupedRecords, cities, Lo(records, status), Hi(records, status));
    }
  }

  /** Every year's entry lists the cities of the records, each once, in order
      of first appearance (`CitiesMembers`, `CitiesDistinct`), and each city's
      counters count that year's group: a counter counts the records of that
      city, status and building type; `total` those with any building type,
      and it is the sum of the seven counters. */
  lemma EntriesCounts(records: seq<Record>, status: RequestedStatus, lo: int, hi: int, k: int, i: int, bt: BuildingType)
    requires 0 <= k <= hi - lo
    requires 0 <= i < |Cities(records)|
    ensures |Entries(records, status, lo, hi)[k].data| == |Cities(records)|
    ensures var e := Entries(records, status, lo, hi)[k].data[i];
            var group := Filter(records, InYear(FieldFor(status), lo + k));
            && e.city == Cities(records)[i]
            && Count(e.counts, bt) == |Filter(group, CountedAs(e.city, AsZoningStatus(status), bt))|
            && e.counts.total == |Filter(group, CountedFor(e.city, AsZoningStatus(status)))|
            && Balanced(e.counts)
  {
    EntriesIndex(records, status, lo, hi, k);
    var group := Filter(records, InYear(FieldFor(status), lo + k));
    var city := Cities(records)[i];
    CityRowsIndex(Cities(records), group, AsZoningStatus(status), i);
    TallyCount(group, city, AsZoningStatus(status), bt);
    TallyTotal(group, city, AsZoningStatus(status));
    TallyBalanced(group, city, AsZoningStatus(status));
  }
}
