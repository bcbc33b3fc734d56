/** repositories/RezoningsRepository.ts: the older query, a city filter only. */
module RezoningsRepository {
  import opened Seqs
  import opened Records
  import RecordsRepository

  /** `getRezonings`: the stored records, of either type, whose city the filter
      keeps, with `total` their number. */
  function GetRezonings(stored: seq<Record>, filter: CityFilter): (r: RecordsRepository.QueryResult)
    ensures r.total == |r.data|
    ensures IsSubsequence(r.data, stored)
    ensures forall x :: x in r.data ==> Keeps(filter, x.city)
    ensures forall x :: multiset(r.data)[x] == if Keeps(filter, x.city) then multiset(stored)[x] else 0
  {
    var kept := Filter(stored, (x: Record) => Keeps(filter, x.city));
    FilterIsSubsequence(stored, (x: Record) => Keeps(filter, x.city));
    forall x ensures multiset(kept)[x] == if Keeps(filter, x.city) then multiset(stored)[x] else 0 {
      FilterCount(stored, (x: Record) => Keeps(filter, x.city), x);
    }
    RecordsRepository.QueryResult(|kept|, kept)
  }

  /** Without a city filter the stored list comes back unchanged, whatever the
      record types in it. */
  lemma {:induction false} NoCityReturnsStored(stored: seq<Record>, filter: CityFilter)
    requires !IsActive(filter)
    ensures GetRezonings(stored, filter).data == stored
    ensures GetRezonings(stored, filter).total == |stored|
  {
    FilterKeepsAll(stored, (x: Record) => Keeps(filter, x.city));
  }

  /** An empty array of cities keeps nothing. */
  lemma {:induction false} EmptyCityListKeepsNothing(stored: seq<Record>)
    ensures GetRezonings(stored, CityList([])).data == []
    ensures GetRezonings(stored, CityList([])).total == 0
  {
    FilterKeepsNone(stored, (x: Record) => Keeps(CityList([]), x.city));
  }

  /** With an array filter a record comes back exactly when its city is listed;
      with a non-empty string, exactly when its city is that string. No type
      filter applies in either case. */
  lemma CityFilterMembership(stored: seq<Record>, filter: CityFilter, x: Record)
    requires IsActive(filter)
    ensures filter.CityList? ==> (x in GetRezonings(stored, filter).data <==> x in stored && x.city in filter.names)
    ensures filter.OneCity? ==> (x in GetRezonings(stored, filter).data <==> x in stored && x.city == filter.name)
  {
  }
}
