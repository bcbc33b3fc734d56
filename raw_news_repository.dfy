/** repositories/RawNewsRepository.ts: the raw-news store. The JSON file that
    every writer overwrites is the field `items` of `RawNewsStore`; reading it
    is reading the field, writing it is assigning the field. */
module RawNewsRepository {
  import opened Wrappers
  import opened Dates
  import opened Seqs
  import opened News
  import opened RawNewsOrder

  /** The filter argument of `getNews`; `None` is an absent member. */
  datatype NewsFilter = NewsFilter(
    city: Option<string>,
    startDate: Option<Date>,
    endDate: Option<Date>,
    limit: Option<int>,
    offset: Option<int>)

  /** The object `getNews` returns. */
  datatype NewsPage = NewsPage(offset: Option<int>, limit: Option<int>, total: nat, data: seq<RawNews>)

  /** JavaScript truthiness of an optional number. */
  predicate NonZero(n: Option<int>) { n.Some? && n.value != 0 }

  /** The index `Array.prototype.slice` makes of a relative position: negative
      positions count from the end, and every position is clamped to the array. */
  function SliceIndex(len: nat, rel: int): (k: nat)
    ensures k <= len
    ensures 0 <= rel ==> k == if rel < len then rel else len
    ensures rel < 0 ==> k == if len + rel < 0 then 0 else len + rel
  {
    if rel < 0 then (if len + rel < 0 then 0 else len + rel)
    else if rel > len then len
    else rel
  }

  /** `s.slice(start, end)`. */
  function Slice<T>(s: seq<T>, start: int, end: int): (r: seq<T>)
    ensures |r| <= |s|
  {
    var k, e := SliceIndex(|s|, start), SliceIndex(|s|, end);
    if k < e then s[k..e] else []
  }

  function OnOrAfter(d: Date): RawNews -> bool { (x: RawNews) => !Before(x.date, d) }

  function StrictlyBefore(d: Date): RawNews -> bool { (x: RawNews) => Before(x.date, d) }

  function InCity(city: string): RawNews -> bool { (x: RawNews) => x.city == city }

  /** The date stages of `getNews`: `date >= startDate`, then `date < endDate`,
      each only when given. */
  function InDateWindow(s: seq<RawNews>, startDate: Option<Date>, endDate: Option<Date>): (r: seq<RawNews>)
    ensures IsSubsequence(r, s)
    ensures forall x :: multiset(r)[x]
              == if (startDate.Some? ==> !Before(x.date, startDate.value))
                    && (endDate.Some? ==> Before(x.date, endDate.value))
                 then multiset(s)[x] else 0
  {
    var a := if startDate.Some? then Filter(s, OnOrAfter(startDate.value)) else s;
    var b := if endDate.Some? then Filter(a, StrictlyBefore(endDate.value)) else a;
    assert IsSubsequence(b, s) by {
      SubsequenceReflexive(s);
      SubsequenceReflexive(a);
      if startDate.Some? { FilterIsSubsequence(s, OnOrAfter(startDate.value)); }
      if endDate.Some? { FilterIsSubsequence(a, StrictlyBefore(endDate.value)); }
      SubsequenceTransitive(b, a, s);
    }
    assert forall x :: (multiset(b)[x]
        == if (startDate.Some? ==> !Before(x.date, startDate.value))
              && (endDate.Some? ==> Before(x.date, endDate.value))
           then multiset(s)[x] else 0)
    by {
      forall x
        ensures multiset(b)[x]
          == if (startDate.Some? ==> !Before(x.date, startDate.value))
                && (endDate.Some? ==> Before(x.date, endDate.value))
             then multiset(s)[x] else 0
      {
        if startDate.Some? { FilterCount(s, OnOrAfter(startDate.value), x); }
        if endDate.Some? { FilterCount(a, StrictlyBefore(endDate.value), x); }
      }
    }
    b
  }

  /** The paging stages of `getNews`: `slice(0, limit)` first, then
      `slice(offset)` of what is left, each skipped when 0 or absent. */
  function Paginate(s: seq<RawNews>, limit: Option<int>, offset: Option<int>): (r: seq<RawNews>)
    ensures |r| <= |s|
  {
    var a := if NonZero(limit) then Slice(s, 0, limit.value) else s;
    if NonZero(offset) then Slice(a, offset.value, |a|) else a
  }

  /** With a positive limit and a non-negative offset the page is the window
      `[offset, limit)` of the list, clamped to its length: the offset counts
      inside the first `limit` items, so an offset at or past the limit leaves
      nothing. */
  lemma PaginateWindow(s: seq<RawNews>, limit: int, offset: int)
    requires limit > 0 && offset >= 0
    ensures var e := if limit < |s| then limit else |s|;
            Paginate(s, Some(limit), Some(offset)) == if offset < e then s[offset..e] else []
  {
  }

  /** A negative limit drops that many items from the end. */
  lemma PaginateNegativeLimit(s: seq<RawNews>, limit: int)
    requires limit < 0
    ensures Paginate(s, Some(limit), None) == s[..if |s| + limit < 0 then 0 else |s| + limit]
  {
  }

  /** A limit or offset of 0 is ignored like an absent one. */
  lemma PaginateZeroIgnored(s: seq<RawNews>, limit: Option<int>, offset: Option<int>)
    ensures Paginate(s, Some(0), offset) == Paginate(s, None, offset)
    ensures Paginate(s, limit, Some(0)) == Paginate(s, limit, None)
    ensures Paginate(s, None, None) == s
  {
  }

  /** The last stage of `getNews`, applied after paging. */
  function CityStage(s: seq<RawNews>, city: Option<string>): seq<RawNews>
  {
    if Truthy(city) then Filter(s, InCity(city.value)) else s
  }

  /** A page is a contiguous stretch of its input. */
  lemma PaginateIsSlice(s: seq<RawNews>, limit: Option<int>, offset: Option<int>)
    ensures exists i, j :: 0 <= i <= j <= |s| && Paginate(s, limit, offset) == s[i..j]
  {
    var a := if NonZero(limit) then Slice(s, 0, limit.value) else s;
    var e := if NonZero(limit) then SliceIndex(|s|, limit.value) else |s|;
    assert a == s[..e];
    if NonZero(offset) {
      var k := SliceIndex(|a|, offset.value);
      if k < |a| {
        assert Paginate(s, limit, offset) == s[k..e];
      } else {
        assert Paginate(s, limit, offset) == s[0..0];
      }
    } else {
      assert Paginate(s, limit, offset) == s[0..e];
    }
  }

  lemma {:induction false} SliceIsSubsequence(s: seq<RawNews>, i: nat, j: nat)
    requires i <= j <= |s|
    ensures IsSubsequence(s[i..j], s)
  {
    if i < j {
      SliceIsSubsequence(s[1..], if i == 0 then 0 else i - 1, j - 1);
      if i == 0 {
        assert s[i..j][1..] == s[1..][0..j - 1];
      } else {
        assert s[i..j] == s[1..][i - 1..j - 1];
      }
    }
  }

  /** Two news items describe the same meeting: same city, date and meeting type. */
  predicate SameMeeting(a: RawNews, b: RawNews)
  {
    a.city == b.city && a.date == b.date && a.meetingType == b.meetingType
  }

  /** `previousEntries.find(...)`: the first stored item of the same meeting. */
  function FindMatch(previous: seq<RawNews>, item: RawNews): (r: Option<RawNews>)
    ensures r.None? <==> forall e :: e in previous ==> !SameMeeting(e, item)
    ensures r.Some? ==> r.value in previous && SameMeeting(r.value, item)
  {
    if previous == [] then None
    else if SameMeeting(previous[0], item) then Some(previous[0])
    else FindMatch(previous[1..], item)
  }

  function IsNewTo(previous: seq<RawNews>): RawNews -> bool
  {
    (x: RawNews) => FindMatch(previous, x).None?
  }

  /** `onlyNewEntries` of `upsertNews`: the incoming items no stored item matches,
      in incoming order; incoming items are not compared with each other. */
  function OnlyNew(previous: seq<RawNews>, news: seq<RawNews>): seq<RawNews>
  {
    Filter(news, IsNewTo(previous))
  }

  /** The list `upsertNews` writes. */
  function Upserted(previous: seq<RawNews>, news: seq<RawNews>): (r: seq<RawNews>)
    ensures |previous| <= |r| <= |previous| + |news|
  {
    NewestFirst(previous + OnlyNew(previous, news))
  }

  /** `upsertNews` keeps every stored entry and adds an incoming item exactly when
      no stored entry has its city, date and meeting type; the result is in
      newest-first order. */
  lemma {:induction false} UpsertedContents(previous: seq<RawNews>, news: seq<RawNews>, x: RawNews)
    ensures multiset(Upserted(previous, news))[x]
            == multiset(previous)[x]
               + if (forall e :: e in previous ==> !SameMeeting(e, x)) then multiset(news)[x] else 0
    ensures IsNewestFirst(Upserted(previous, news))
  {
    NewestFirstPermutes(previous + OnlyNew(previous, news));
    NewestFirstOrders(previous + OnlyNew(previous, news));
    FilterCount(news, IsNewTo(previous), x);
  }

  /** Incoming items are only compared with the stored list: two incoming items
      for the same new meeting are both added. */
  lemma {:induction false} UpsertKeepsIncomingDuplicates(previous: seq<RawNews>, a: RawNews, b: RawNews)
    requires SameMeeting(a, b)
    requires forall e :: e in previous ==> !SameMeeting(e, a)
    ensures OnlyNew(previous, [a, b]) == [a, b]
    ensures multiset(Upserted(previous, [a, b])) == multiset(previous) + multiset{a, b}
  {
    assert [a, b][1..] == [b];
    assert IsNewTo(previous)(a);
    assert IsNewTo(previous)(b);
    assert Filter([b], IsNewTo(previous)) == [b];
    NewestFirstPermutes(previous + [a, b]);
  }

  /** The optional `dateOptions` of `dangerouslyUpdateNews`. */
  datatype DateRange = DateRange(startDate: Date, endDate: Date)

  /** An entry `dangerouslyUpdateNews` removes: its city matches and, when a
      range is given, its date lies strictly inside it (`isBetween`). */
  predicate IsReplaced(x: RawNews, city: string, range: Option<DateRange>)
  {
    x.city == city
    && (range.Some? ==> Before(range.value.startDate, x.date) && Before(x.date, range.value.endDate))
  }

  function Survives(city: string, range: Option<DateRange>): RawNews -> bool
  {
    (x: RawNews) => !IsReplaced(x, city, range)
  }

  /** The list `dangerouslyUpdateNews` writes. */
  function Replaced(previous: seq<RawNews>, city: string, news: seq<RawNews>, range: Option<DateRange>): (r: seq<RawNews>)
    ensures |news| <= |r| <= |previous| + |news|
  {
    NewestFirst(Filter(previous, Survives(city, range)) + news)
  }

  /** `dangerouslyUpdateNews` removes exactly the replaced entries, keeps all
      others, adds every new item, and writes newest first. */
  lemma {:induction false} ReplacedContents(previous: seq<RawNews>, city: string, news: seq<RawNews>,
                                            range: Option<DateRange>, x: RawNews)
    ensures multiset(Replaced(previous, city, news, range))[x]
            == (if IsReplaced(x, city, range) then 0 else multiset(previous)[x]) + multiset(news)[x]
    ensures IsNewestFirst(Replaced(previous, city, news, range))
  {
    NewestFirstPermutes(Filter(previous, Survives(city, range)) + news);
    NewestFirstOrders(Filter(previous, Survives(city, range)) + news);
    FilterCount(previous, Survives(city, range), x);
  }

  /** `reorderItems([...])` on a freshly spread array. */
  method SortedCopy(s: seq<RawNews>) returns (r: seq<RawNews>)
    ensures r == NewestFirst(s)
  {
    var a := new RawNews[|s|](i requires 0 <= i < |s| => s[i]);
    assert a[..] == s;
    ReorderItems(a);
    r := a[..];
  }

  /** What every item of a `getNews` page satisfies, and that the page keeps
      the stored order. */
  lemma PageProperties(items: seq<RawNews>, filter: NewsFilter)
    ensures var data := CityStage(Paginate(InDateWindow(items, filter.startDate, filter.endDate),
                                           filter.limit, filter.offset), filter.city);
            IsSubsequence(data, items)
            && forall x :: x in data ==>
                 x in items
                 && (filter.startDate.Some? ==> !Before(x.date, filter.startDate.value))
                 && (filter.endDate.Some? ==> Before(x.date, filter.endDate.value))
                 && (Truthy(filter.city) ==> x.city == filter.city.value)
  {
    var windowed := InDateWindow(items, filter.startDate, filter.endDate);
    var paged := Paginate(windowed, filter.limit, filter.offset);
    var data := CityStage(paged, filter.city);
    PaginateIsSlice(windowed, filter.limit, filter.offset);
    var i, j :| 0 <= i <= j <= |windowed| && paged == windowed[i..j];
    SliceIsSubsequence(windowed, i, j);
    if Truthy(filter.city) {
      FilterIsSubsequence(paged, InCity(filter.city.value));
    } else {
      SubsequenceReflexive(paged);
    }
    SubsequenceTransitive(paged, windowed, items);
    SubsequenceTransitive(data, paged, items);
    forall x | x in data
      ensures x in items
      ensures filter.startDate.Some? ==> !Before(x.date, filter.startDate.value)
      ensures filter.endDate.Some? ==> Before(x.date, filter.endDate.value)
    {
      assert x in windowed;
      assert multiset(windowed)[x] > 0;
    }
  }

  class RawNewsStore {
    /** The contents of the raw-news JSON file. */
    var items: seq<RawNews>

    constructor (stored: seq<RawNews>)
      ensures items == stored
    {
      items := stored;
    }

    /** `getNews`: five guarded stages over the stored list; `total` is the size
        of the whole stored list. */
    method GetNews(filter: NewsFilter) returns (page: NewsPage)
      ensures page.offset == filter.offset && page.limit == filter.limit
      ensures page.total == |items|
      ensures page.data
              == CityStage(Paginate(InDateWindow(items, filter.startDate, filter.endDate),
                                    filter.limit, filter.offset), filter.city)
      ensures IsSubsequence(page.data, items)
      ensures forall x :: x in page.data ==>
                x in items
                && (filter.startDate.Some? ==> !Before(x.date, filter.startDate.value))
                && (filter.endDate.Some? ==> Before(x.date, filter.endDate.value))
                && (Truthy(filter.city) ==> x.city == filter.city.value)
    {
      var filtered := items;
      if filter.startDate.Some? {
        filtered := Filter(filtered, OnOrAfter(filter.startDate.value));
      }
      if filter.endDate.Some? {
        filtered := Filter(filtered, StrictlyBefore(filter.endDate.value));
      }
      ghost var windowed := filtered;
      assert windowed == InDateWindow(items, filter.startDate, filter.endDate);
      if NonZero(filter.limit) {
        filtered := Slice(filtered, 0, filter.limit.value);
      }
      if NonZero(filter.offset) {
        filtered := Slice(filtered, filter.offset.value, |filtered|);
      }
      assert filtered == Paginate(windowed, filter.limit, filter.offset);
      if Truthy(filter.city) {
        filtered := Filter(filtered, InCity(filter.city.value));
      }
      PageProperties(items, filter);
      page := NewsPage(filter.offset, filter.limit, |items|, filtered);
    }

    /** `upsertNews`: adds the incoming items of meetings not yet stored and
        writes everything back newest first. */
    method UpsertNews(news: seq<RawNews>)
      modifies this
      ensures items == Upserted(old(items), news)
      ensures IsNewestFirst(items)
    {
      var previousEntries := items;
      var onlyNewEntries := Filter(news, IsNewTo(previousEntries));
      var orderedData := SortedCopy(previousEntries + onlyNewEntries);
      items := orderedData;
      NewestFirstOrders(previousEntries + onlyNewEntries);
    }

    /** `dangerouslyUpdateNews`: replaces one city's entries (inside the range,
        when given) by `news` and writes everything back newest first. */
    method DangerouslyUpdateNews(city: string, news: seq<RawNews>, range: Option<DateRange>)
      modifies this
      ensures items == Replaced(old(items), city, news, range)
      ensures IsNewestFirst(items)
    {
      var previousEntries := items;
      var filteredData := Filter(previousEntries, Survives(city, range));
      var orderedData := SortedCopy(filteredData + news);
      items := orderedData;
      NewestFirstOrders(filteredData + news);
    }

    /** `dangerouslyUpdateAllNews`: sorts the caller's array in place and stores it. */
    method DangerouslyUpdateAllNews(news: array<RawNews>)
      modifies this, news
      ensures news[..] == NewestFirst(old(news[..]))
      ensures items == news[..]
      ensures IsNewestFirst(items) && multiset(items) == multiset(old(news[..]))
    {
      ReorderItems(news);
      items := news[..];
      NewestFirstOrders(old(news[..]));
      NewestFirstPermutes(old(news[..]));
    }
  }
}
