/** repositories/RecordsRepository.ts: the two read-only queries over the stored
    record list (the `require`d JSON file is the parameter `stored`). */
module RecordsRepository {
  import opened Seqs
  import opened Records

  /** The `{total, data}` object both queries return. */
  datatype QueryResult = QueryResult(total: nat, data: seq<Record>)

  predicate IsRezoning(r: Record) { r.recordType == Rezoning }

  predicate IsDevelopmentPermit(r: Record) { r.recordType == DevelopmentPermit }

  /** Type filter, then city filter, then `{total: length, data}`. */
  function Query(stored: seq<Record>, ofType: Record -> bool, filter: CityFilter): (r: QueryResult)
    ensures r.total == |r.data|
    ensures IsSubsequence(r.data, stored)
    ensures forall x :: x in r.data ==> ofType(x) && Keeps(filter, x.city)
    ensures forall x :: multiset(r.data)[x]
              == if ofType(x) && Keeps(filter, x.city) then multiset(stored)[x] else 0
  {
    var byType := Filter(stored, ofType);
    var byCity := Filter(byType, (x: Record) => Keeps(filter, x.city));
    FilterIsSubsequence(stored, ofType);
    FilterIsSubsequence(byType, (x: Record) => Keeps(filter, x.city));
    SubsequenceTransitive(byCity, byType, stored);
    forall x
      ensures multiset(byCity)[x] == if ofType(x) && Keeps(filter, x.city) then multiset(stored)[x] else 0
    {
      FilterCount(stored, ofType, x);
      FilterCount(byType, (x: Record) => Keeps(filter, x.city), x);
    }
    QueryResult(|byCity|, byCity)
  }

  /** `getRezonings`: exactly the stored rezonings whose city the filter keeps,
      each as often as it is stored, in stored order. */
  function GetRezonings(stored: seq<Record>, filter: CityFilter): (r: QueryResult)
    ensures r.total == |r.data|
    ensures IsSubsequence(r.data, stored)
    ensures forall x :: x in r.data ==> x.recordType == Rezoning && Keeps(filter, x.city)
    ensures forall x :: x in stored && x.recordType == Rezoning && Keeps(filter, x.city) ==> x in r.data
    ensures forall x :: multiset(r.data)[x]
              == if x.recordType == Rezoning && Keeps(filter, x.city) then multiset(stored)[x] else 0
  {
    Query(stored, IsRezoning, filter)
  }

  /** `getDevelopmentPermits`: the same with type `'development permit'`. */
  function GetDevelopmentPermits(stored: seq<Record>, filter: CityFilter): (r: QueryResult)
    ensures r.total == |r.data|
    ensures IsSubsequence(r.data, stored)
    ensures forall x :: x in r.data ==> x.recordType == DevelopmentPermit && Keeps(filter, x.city)
    ensures forall x :: x in stored && x.recordType == DevelopmentPermit && Keeps(filter, x.city) ==> x in r.data
    ensures forall x :: multiset(r.data)[x]
              == if x.recordType == DevelopmentPermit && Keeps(filter, x.city) then multiset(stored)[x] else 0
  {
    Query(stored, IsDevelopmentPermit, filter)
  }

  /** The two queries never return a common record. */
  lemma RezoningsAndPermitsDisjoint(stored: seq<Record>, f: CityFilter, g: CityFilter)
    ensures forall x :: !(x in GetRezonings(stored, f).data && x in GetDevelopmentPermits(stored, g).data)
  {
  }

  /** A string filter keeps exactly the records of that city. */
  lemma {:induction false} OneCityKeepsThatCity(stored: seq<Record>, name: string, x: Record)
    requires name != ""
    ensures x in GetRezonings(stored, OneCity(name)).data <==> x in stored && IsRezoning(x) && x.city == name
  {
  }

  /** An empty list of cities is truthy and keeps nothing; no list keeps a
      record whose city it does not name. */
  lemma {:induction false} EmptyCityListKeepsNothing(stored: seq<Record>)
    ensures GetRezonings(stored, CityList([])).data == []
    ensures GetDevelopmentPermits(stored, CityList([])).data == []
  {
    FilterKeepsNone(Filter(stored, IsRezoning), (x: Record) => Keeps(CityList([]), x.city));
    FilterKeepsNone(Filter(stored, IsDevelopmentPermit), (x: Record) => Keeps(CityList([]), x.city));
  }

  /** A null or empty-string city applies no city filter: every stored record
      of the requested type comes back, in stored order. */
  lemma {:induction false} InactiveFilterKeepsAllOfType(stored: seq<Record>, filter: CityFilter)
    requires !IsActive(filter)
    ensures GetRezonings(stored, filter).data == Filter(stored, IsRezoning)
    ensures GetDevelopmentPermits(stored, filter).data == Filter(stored, IsDevelopmentPermit)
  {
    FilterKeepsAll(Filter(stored, IsRezoning), (x: Record) => Keeps(filter, x.city));
    FilterKeepsAll(Filter(stored, IsDevelopmentPermit), (x: Record) => Keeps(filter, x.city));
  }
}
