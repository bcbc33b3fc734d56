/** `reorderItems` of repositories/RawNewsRepository.ts: `items.sort` with a
    comparator putting later dates first and answering 0 for equal dates.
    `Array.prototype.sort` is stable, so the result is the stable
    newest-first sort, specified here by `NewestFirst`. */
module RawNewsOrder {
  import opened Dates
  import opened News

  /** No item is followed by a strictly newer one. */
  ghost predicate IsNewestFirst(s: seq<RawNews>)
  {
    forall i, j :: 0 <= i < j < |s| ==> SameOrBefore(s[j].date, s[i].date)
  }

  /** Places `x` after every item of `t` that is not older than it. */
  function Insert(t: seq<RawNews>, x: RawNews): (r: seq<RawNews>)
    ensures |r| == |t| + 1
  {
    if t == [] then [x]
    else if SameOrBefore(x.date, t[0].date) then [t[0]] + Insert(t[1..], x)
    else [x] + t
  }

  /** The stable newest-first order of `s`: each item is inserted, in input
      order, behind everything already placed that is not older. */
  function NewestFirst(s: seq<RawNews>): (r: seq<RawNews>)
    ensures |r| == |s|
  {
    if s == [] then [] else Insert(NewestFirst(s[..|s| - 1]), s[|s| - 1])
  }

  /** The items of `s` dated `d`, in order. */
  function OnDate(s: seq<RawNews>, d: Date): (r: seq<RawNews>)
    ensures forall x :: x in r ==> x in s && x.date == d
  {
    if s == [] then []
    else if s[0].date == d then [s[0]] + OnDate(s[1..], d)
    else OnDate(s[1..], d)
  }

  lemma {:induction false} OnDateAppend(a: seq<RawNews>, b: seq<RawNews>, d: Date)
    ensures OnDate(a + b, d) == OnDate(a, d) + OnDate(b, d)
  {
    if a == [] {
      assert a + b == b;
    } else {
      assert (a + b)[1..] == a[1..] + b;
      OnDateAppend(a[1..], b, d);
    }
  }

  lemma {:induction false} InsertPermutes(t: seq<RawNews>, x: RawNews)
    ensures multiset(Insert(t, x)) == multiset(t) + multiset{x}
  {
    if t != [] && SameOrBefore(x.date, t[0].date) {
      InsertPermutes(t[1..], x);
      assert t == [t[0]] + t[1..];
    }
  }

  lemma {:induction false} InsertKeepsOrder(t: seq<RawNews>, x: RawNews)
    requires IsNewestFirst(t)
    ensures IsNewestFirst(Insert(t, x))
  {
    if t != [] && SameOrBefore(x.date, t[0].date) {
      InsertKeepsOrder(t[1..], x);
      InsertPermutes(t[1..], x);
      var r := Insert(t, x);
      forall j | 0 < j < |r| ensures SameOrBefore(r[j].date, r[0].date) {
        assert r[j] in multiset(Insert(t[1..], x));
      }
    }
  }

  /** Inserting `x` keeps the items of every date in their previous order and
      puts `x` behind the items sharing its date. */
  lemma {:induction false} InsertStable(t: seq<RawNews>, x: RawNews, d: Date)
    requires IsNewestFirst(t)
    ensures OnDate(Insert(t, x), d) == OnDate(t, d) + (if x.date == d then [x] else [])
  {
    if t == [] {
    } else if SameOrBefore(x.date, t[0].date) {
      InsertStable(t[1..], x, d);
    } else if x.date == d {
      OnDateNone(t, d);
    }
  }

  /** In a newest-first list headed by something older than `d`, nothing is dated `d`. */
  lemma {:induction false} OnDateNone(t: seq<RawNews>, d: Date)
    requires IsNewestFirst(t) && t != [] && Before(t[0].date, d)
    ensures OnDate(t, d) == []
  {
    if |t| > 1 {
      OnDateNone(t[1..], d);
    }
  }

  /** `NewestFirst` is a permutation of its input. */
  lemma {:induction false} NewestFirstPermutes(s: seq<RawNews>)
    ensures multiset(NewestFirst(s)) == multiset(s)
  {
    if s != [] {
      var init, last := s[..|s| - 1], s[|s| - 1];
      assert multiset(NewestFirst(init)) == multiset(init) by { NewestFirstPermutes(init); }
      assert multiset(Insert(NewestFirst(init), last)) == multiset(NewestFirst(init)) + multiset{last} by {
        InsertPermutes(NewestFirst(init), last);
      }
      assert multiset(s) == multiset(init) + multiset{last} by { assert s == init + [last]; }
    }
  }

  /** `NewestFirst` never puts an item before a strictly newer one. */
  lemma {:induction false} NewestFirstOrders(s: seq<RawNews>)
    ensures IsNewestFirst(NewestFirst(s))
  {
    if s != [] {
      NewestFirstOrders(s[..|s| - 1]);
      InsertKeepsOrder(NewestFirst(s[..|s| - 1]), s[|s| - 1]);
    }
  }

  /** Items that compare as 0 (same date) keep their relative input order. */
  lemma {:induction false} NewestFirstStable(s: seq<RawNews>, d: Date)
    ensures OnDate(NewestFirst(s), d) == OnDate(s, d)
  {
    if s != [] {
      var init, last := s[..|s| - 1], s[|s| - 1];
      NewestFirstStable(init, d);
      NewestFirstOrders(init);
      InsertStable(NewestFirst(init), last, d);
      assert NewestFirst(s) == Insert(NewestFirst(init), last);
      assert s == init + [last];
      OnDateAppend(init, [last], d);
      assert OnDate([last], d) == if last.date == d then [last] else [] by {
        assert [last][1..] == [];
      }
    }
  }

  /** Where the in-place sort drops `x`: behind the prefix not older than `x`,
      in front of the suffix strictly older. */
  lemma {:induction false} InsertAt(t: seq<RawNews>, x: RawNews, j: nat)
    requires IsNewestFirst(t) && j <= |t|
    requires j > 0 ==> SameOrBefore(x.date, t[j - 1].date)
    requires forall k :: j <= k < |t| ==> Before(t[k].date, x.date)
    ensures Insert(t, x) == t[..j] + [x] + t[j..]
  {
    if t != [] {
      if j == 0 {
        assert Before(t[0].date, x.date);
      } else {
        assert SameOrBefore(x.date, t[0].date) by {
          assert SameOrBefore(t[j - 1].date, t[0].date) || j - 1 == 0;
        }
        InsertAt(t[1..], x, j - 1);
        assert t[..j] == [t[0]] + t[1..][..j - 1];
      }
    }
  }

  /** The inner loop of the in-place sort: moves the items of `a[..i]` that are
      strictly older than `key` one place right, from the back, and returns
      the gap left behind. */
  method ShiftOlder(a: array<RawNews>, i: int, key: RawNews) returns (j: int)
    requires 0 <= i < a.Length
    modifies a
    ensures 0 <= j <= i
    ensures a[..j] == old(a[..j])
    ensures a[j + 1..i + 1] == old(a[j..i])
    ensures a[i + 1..] == old(a[i + 1..])
    ensures forall k :: j <= k < i ==> Before(old(a[k]).date, key.date)
    ensures j > 0 ==> !Before(a[j - 1].date, key.date)
  {
    ghost var placed := a[..i];
    j := i;
    while j > 0 && Before(a[j - 1].date, key.date)
      invariant 0 <= j <= i
      invariant a[..j] == placed[..j]
      invariant a[j + 1..i + 1] == placed[j..]
      invariant forall k :: j <= k < i ==> Before(placed[k].date, key.date)
      invariant a[i + 1..] == old(a[i + 1..])
    {
      ghost var before := a[..];
      a[j] := a[j - 1];
      assert a[..] == before[j := before[j - 1]];
      ShiftStep(before, placed, j, i);
      j := j - 1;
    }
  }

  /** One shift of `ShiftOlder`: copying the item before the gap into it moves
      the gap one place left. */
  lemma ShiftStep(s: seq<RawNews>, placed: seq<RawNews>, j: int, i: int)
    requires 0 < j <= i < |s| && |placed| == i
    requires s[..j] == placed[..j] && s[j + 1..i + 1] == placed[j..]
    ensures s[j := s[j - 1]][..j - 1] == placed[..j - 1]
    ensures s[j := s[j - 1]][j..i + 1] == placed[j - 1..]
    ensures s[j := s[j - 1]][i + 1..] == s[i + 1..]
  {
    var t := s[j := s[j - 1]];
    assert t[..j - 1] == s[..j][..j - 1];
    assert t[j..i + 1] == [s[j - 1]] + s[j + 1..i + 1];
    assert placed[j - 1..] == [placed[j - 1]] + placed[j..];
  }

  /** Writing `key` into the gap at `j` that `ShiftOlder` leaves. */
  lemma FillGap(s: seq<RawNews>, placed: seq<RawNews>, key: RawNews, j: int, i: int)
    requires 0 <= j <= i < |s| && |placed| == i
    requires s[..j] == placed[..j] && s[j + 1..i + 1] == placed[j..]
    ensures s[j := key][..i + 1] == placed[..j] + [key] + placed[j..]
    ensures s[j := key][i + 1..] == s[i + 1..]
  {
    var t := s[j := key];
    assert t[..j] == s[..j];
    assert t[j + 1..i + 1] == s[j + 1..i + 1];
    assert t[..i + 1] == t[..j] + [t[j]] + t[j + 1..i + 1];
  }

  /** One step of the in-place sort: drops `a[i]` behind the items of the
      sorted prefix `a[..i]` that are not older than it. */
  method InsertInPlace(a: array<RawNews>, i: int)
    requires 0 <= i < a.Length && IsNewestFirst(a[..i])
    modifies a
    ensures a[..i + 1] == Insert(old(a[..i]), old(a[i]))
    ensures a[i + 1..] == old(a[i + 1..])
  {
    var key := a[i];
    ghost var placed := a[..i];
    var j := ShiftOlder(a, i, key);
    InsertAt(placed, key, j);
    ghost var shifted := a[..];
    a[j] := key;
    assert a[..] == shifted[j := key];
    FillGap(shifted, placed, key, j, i);
  }

  /** `reorderItems(items)`: sorts the given array in place. */
  method ReorderItems(a: array<RawNews>)
    modifies a
    ensures a[..] == NewestFirst(old(a[..]))
  {
    ghost var input := a[..];
    var i := 0;
    while i < a.Length
      invariant 0 <= i <= a.Length
      invariant a[..i] == NewestFirst(input[..i])
      invariant a[i..] == input[i..]
    {
      NewestFirstOrders(input[..i]);
      assert a[i] == input[i];
      InsertInPlace(a, i);
      assert input[..i + 1][..i] == input[..i];
      i := i + 1;
    }
    assert input[..a.Length] == input;
  }
}
