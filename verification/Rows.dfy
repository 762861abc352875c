/** Rows, WHERE, ORDER BY and SUM: the relational vocabulary the rest of the project is written in.
    A table lists its rows in the order they were inserted, which is also the order of their ids. */
module Rows {

  datatype Option<+T> = None | Some(value: T)

  /** One row of any telemetry table: its rowid, its time column, and the remaining columns. */
  datatype Row<T> = Row(id: int, ts: int, body: T)

  /** WHERE p. */
  function Select<T>(s: seq<T>, p: T -> bool): (r: seq<T>)
    ensures |r| <= |s|
    ensures forall x :: x in r ==> x in s && p(x)
    ensures forall x :: x in s && p(x) ==> x in r
  {
    if s == [] then [] else
    var r := Select(s[..|s| - 1], p);
    if p(s[|s| - 1]) then r + [s[|s| - 1]] else r
  }

  function Not<T>(p: T -> bool): T -> bool {
    (x: T) => !p(x)
  }

  lemma {:induction false} SelectAppend<T>(s: seq<T>, t: seq<T>, p: T -> bool)
    ensures Select(s + t, p) == Select(s, p) + Select(t, p)
  {
    if t == [] {
      assert s + t == s;
    } else {
      var u := s + t;
      assert u[..|u| - 1] == s + t[..|t| - 1];
      SelectAppend(s, t[..|t| - 1], p);
    }
  }

  lemma {:induction false} SelectSame<T>(s: seq<T>, p: T -> bool, q: T -> bool)
    requires forall x :: x in s ==> p(x) == q(x)
    ensures Select(s, p) == Select(s, q)
  {
    if s != [] {
      SelectSame(s[..|s| - 1], p, q);
    }
  }

  lemma {:induction false} SelectAll<T>(s: seq<T>, p: T -> bool)
    requires forall x :: x in s ==> p(x)
    ensures Select(s, p) == s
  {
    if s != [] {
      SelectAll(s[..|s| - 1], p);
    }
  }

  lemma {:induction false} SelectNone<T>(s: seq<T>, p: T -> bool)
    requires forall x :: x in s ==> !p(x)
    ensures Select(s, p) == []
  {
    if s != [] {
      SelectNone(s[..|s| - 1], p);
    }
  }

  lemma {:induction false} SelectPush<T>(s: seq<T>, x: T, p: T -> bool)
    ensures Select(s + [x], p) == if p(x) then Select(s, p) + [x] else Select(s, p)
  {
    assert (s + [x])[..|s|] == s;
  }

  lemma {:induction false} CountPush<T>(s: seq<T>, x: T, p: T -> bool)
    ensures |Select(s + [x], p)| == |Select(s, p)| + if p(x) then 1 else 0
  {
    SelectPush(s, x, p);
  }

  lemma {:induction false} SelectCount<T>(s: seq<T>, p: T -> bool, x: T)
    ensures multiset(Select(s, p))[x] == if p(x) then multiset(s)[x] else 0
  {
    if s != [] {
      SelectCount(s[..|s| - 1], p, x);
      assert s == s[..|s| - 1] + [s[|s| - 1]];
    }
  }

  /** Filtering twice is filtering by both conditions. */
  lemma {:induction false} SelectTwice<T>(s: seq<T>, p: T -> bool, q: T -> bool, both: T -> bool)
    requires forall x :: x in s ==> both(x) == (p(x) && q(x))
    ensures Select(Select(s, p), q) == Select(s, both)
  {
    if s != [] {
      SelectTwice(s[..|s| - 1], p, q, both);
      SelectPush(Select(s[..|s| - 1], p), s[|s| - 1], q);
    }
  }

  /** Counting: a table splits into the rows a condition keeps and those it drops. */
  lemma {:induction false} SelectPartition<T>(s: seq<T>, p: T -> bool)
    ensures |Select(s, p)| + |Select(s, Not(p))| == |s|
  {
    if s != [] {
      SelectPartition(s[..|s| - 1], p);
    }
  }

  // ---- what WHERE keeps, by position ----

  ghost function Where<T>(s: seq<T>, p: T -> bool): set<int> {
    set i | 0 <= i < |s| && p(s[i])
  }

  ghost function Count<T>(s: seq<T>, p: T -> bool): nat {
    |Where(s, p)|
  }

  lemma {:induction false} WherePush<T>(s: seq<T>, p: T -> bool)
    requires s != []
    ensures var n := |s| - 1;
            n !in Where(s[..n], p) && Where(s, p) == Where(s[..n], p) + if p(s[n]) then {n} else {}
  { }

  lemma {:induction false} CountPositions<T>(s: seq<T>, p: T -> bool)
    requires s != []
    ensures Count(s, p) == Count(s[..|s| - 1], p) + if p(s[|s| - 1]) then 1 else 0
  {
    WherePush(s, p);
  }

  /** The number of rows kept is the number of positions the condition holds at. */
  lemma {:induction false} SelectCounts<T>(s: seq<T>, p: T -> bool)
    ensures |Select(s, p)| == Count(s, p)
  {
    if s == [] {
      assert Where(s, p) == {};
    } else {
      SelectCounts(s[..|s| - 1], p);
      CountPositions(s, p);
    }
  }

  lemma {:induction false} CountsSame<T>(s: seq<T>, p: T -> bool, q: T -> bool)
    requires forall x :: x in s ==> p(x) == q(x)
    ensures |Select(s, p)| == Count(s, q)
  {
    SelectSame(s, p, q);
    SelectCounts(s, q);
  }

  function Positions<T>(s: seq<T>, p: T -> bool): (at: seq<nat>)
    ensures forall i, j :: 0 <= i < j < |at| ==> at[i] < at[j]
    ensures forall k :: 0 <= k < |at| ==> at[k] < |s| && p(s[at[k]])
    ensures forall i :: 0 <= i < |s| && p(s[i]) ==> i in at
  {
    if s == [] then [] else
    var front := Positions(s[..|s| - 1], p);
    if p(s[|s| - 1]) then front + [|s| - 1] else front
  }

  /** The rows of a list at these positions. */
  ghost predicate RowsAt<T>(s: seq<T>, rows: seq<T>, at: seq<nat>) {
    |rows| == |at| && forall k :: 0 <= k < |at| ==> at[k] < |s| && rows[k] == s[at[k]]
  }

  lemma {:induction false} RowsAtPush<T>(s: seq<T>, x: T, rows: seq<T>, at: seq<nat>)
    requires RowsAt(s, rows, at)
    ensures RowsAt(s + [x], rows, at) && RowsAt(s + [x], rows + [x], at + [|s|])
  { }

  lemma {:induction false} PositionsPush<T>(s: seq<T>, x: T, p: T -> bool)
    ensures Positions(s + [x], p) == Positions(s, p) + if p(x) then [|s|] else []
  {
    assert (s + [x])[..|s|] == s;
  }

  /** The rows kept are the ones the condition holds of, in their order. */
  lemma {:induction false} SelectIsAt<T>(s: seq<T>, p: T -> bool)
    ensures RowsAt(s, Select(s, p), Positions(s, p))
  {
    if s != [] {
      var front, x := s[..|s| - 1], s[|s| - 1];
      SelectIsAt(front, p);
      RowsAtPush(front, x, Select(front, p), Positions(front, p));
      SelectPush(front, x, p);
      PositionsPush(front, x, p);
      assert s == front + [x];
    }
  }

  /** Ids strictly increase from one row to the next. */
  ghost predicate IdsAscend<T>(s: seq<Row<T>>) {
    forall i, j :: 0 <= i < j < |s| ==> s[i].id < s[j].id
  }

  lemma {:induction false} SelectAscends<T>(s: seq<Row<T>>, p: Row<T> -> bool)
    requires IdsAscend(s)
    ensures IdsAscend(Select(s, p))
  {
    if s != [] {
      var front := s[..|s| - 1];
      assert forall x :: x in front ==> x.id < s[|s| - 1].id;
      SelectAscends(front, p);
    }
  }

  ghost predicate DistinctIds<T>(s: seq<Row<T>>) {
    forall i, j :: 0 <= i < j < |s| ==> s[i].id != s[j].id
  }

  // ---- ORDER BY ts_unix_ms ASC, ties in rowid order ----

  function InsertByTs<T>(s: seq<Row<T>>, x: Row<T>): (r: seq<Row<T>>)
    ensures multiset(r) == multiset(s) + multiset{x}
    ensures |r| == |s| + 1
  {
    if s == [] || s[|s| - 1].ts <= x.ts then s + [x]
    else
      assert s == s[..|s| - 1] + [s[|s| - 1]];
      InsertByTs(s[..|s| - 1], x) + [s[|s| - 1]]
  }

  /** The stable sort by time that every list query ends with. */
  function SortByTs<T>(s: seq<Row<T>>): (r: seq<Row<T>>)
    ensures multiset(r) == multiset(s)
    ensures |r| == |s|
  {
    if s == [] then []
    else
      assert s == s[..|s| - 1] + [s[|s| - 1]];
      InsertByTs(SortByTs(s[..|s| - 1]), s[|s| - 1])
  }

  ghost predicate TsAscend<T>(s: seq<Row<T>>) {
    forall i, j :: 0 <= i < j < |s| ==> s[i].ts <= s[j].ts
  }

  ghost predicate Before<T>(a: Row<T>, b: Row<T>) {
    a.ts < b.ts || (a.ts == b.ts && a.id < b.id)
  }

  /** Ordered by time, and by id among rows of the same time. */
  ghost predicate TsIdAscend<T>(s: seq<Row<T>>) {
    forall i, j :: 0 <= i < j < |s| ==> Before(s[i], s[j])
  }

  ghost predicate SameRows<T(!new)>(s: seq<T>, t: seq<T>) {
    forall x :: x in s <==> x in t
  }

  lemma {:induction false} SameMembers<T(!new)>(s: seq<T>, t: seq<T>)
    requires multiset(s) == multiset(t)
    ensures SameRows(s, t)
  {
    forall x | x in s ensures x in t { assert x in multiset(t); }
    forall x | x in t ensures x in s { assert x in multiset(s); }
  }

  lemma {:induction false} InsertKeepsOrder<T>(s: seq<Row<T>>, x: Row<T>)
    requires TsAscend(s)
    ensures TsAscend(InsertByTs(s, x))
  {
    if s != [] && s[|s| - 1].ts > x.ts {
      var front := s[..|s| - 1];
      InsertKeepsOrder(front, x);
      var r := InsertByTs(front, x);
      forall i | 0 <= i < |r| ensures r[i].ts <= s[|s| - 1].ts { assert r[i] in multiset(r); }
    }
  }

  lemma {:induction false} SortSorts<T>(s: seq<Row<T>>)
    ensures TsAscend(SortByTs(s))
  {
    if s != [] {
      SortSorts(s[..|s| - 1]);
      InsertKeepsOrder(SortByTs(s[..|s| - 1]), s[|s| - 1]);
    }
  }

  lemma {:induction false} InsertKeepsTies<T>(s: seq<Row<T>>, x: Row<T>)
    requires TsIdAscend(s) && forall i :: 0 <= i < |s| ==> s[i].id < x.id
    ensures TsIdAscend(InsertByTs(s, x))
  {
    if s != [] && s[|s| - 1].ts > x.ts {
      var front, last := s[..|s| - 1], s[|s| - 1];
      InsertKeepsTies(front, x);
      var r := InsertByTs(front, x);
      forall i | 0 <= i < |r| ensures Before(r[i], last) { assert r[i] in multiset(r); }
    }
  }

  /** On a table in rowid order, the sort is ORDER BY ts_unix_ms with ties broken by id. */
  lemma {:induction false} SortBreaksTiesById<T>(s: seq<Row<T>>)
    requires IdsAscend(s)
    ensures TsIdAscend(SortByTs(s))
  {
    if s != [] {
      var front := s[..|s| - 1];
      SortBreaksTiesById(front);
      assert forall y :: y in front ==> y.id < s[|s| - 1].id;
      var r := SortByTs(front);
      forall i | 0 <= i < |r| ensures r[i].id < s[|s| - 1].id { assert r[i] in multiset(r); }
      InsertKeepsTies(SortByTs(front), s[|s| - 1]);
    }
  }

  lemma {:induction false} InsertKeepsDistinct<T>(s: seq<Row<T>>, x: Row<T>)
    requires DistinctIds(s) && forall i :: 0 <= i < |s| ==> s[i].id != x.id
    ensures DistinctIds(InsertByTs(s, x))
  {
    if s != [] && s[|s| - 1].ts > x.ts {
      var front := s[..|s| - 1];
      InsertKeepsDistinct(front, x);
      var r := InsertByTs(front, x);
      forall i | 0 <= i < |r| ensures r[i].id != s[|s| - 1].id { assert r[i] in multiset(r); }
    }
  }

  lemma {:induction false} SortKeepsDistinct<T>(s: seq<Row<T>>)
    requires DistinctIds(s)
    ensures DistinctIds(SortByTs(s))
  {
    if s != [] {
      var front := s[..|s| - 1];
      SortKeepsDistinct(front);
      var r := SortByTs(front);
      forall i | 0 <= i < |r| ensures r[i].id != s[|s| - 1].id { assert r[i] in multiset(r); }
      InsertKeepsDistinct(r, s[|s| - 1]);
    }
  }

  lemma {:induction false} SelectInsert<T>(s: seq<Row<T>>, x: Row<T>, p: Row<T> -> bool)
    requires TsAscend(s)
    ensures Select(InsertByTs(s, x), p) == if p(x) then InsertByTs(Select(s, p), x) else Select(s, p)
  {
    if s == [] || s[|s| - 1].ts <= x.ts {
      SelectPush(s, x, p);
      assert forall y :: y in s ==> y.ts <= x.ts;
    } else {
      var front, last := s[..|s| - 1], s[|s| - 1];
      SelectInsert(front, x, p);
      SelectPush(InsertByTs(front, x), last, p);
      InsertPush(Select(front, p), last, x);
    }
  }

  lemma {:induction false} InsertPush<T>(s: seq<Row<T>>, last: Row<T>, x: Row<T>)
    requires last.ts > x.ts
    ensures InsertByTs(s + [last], x) == InsertByTs(s, x) + [last]
  {
    assert (s + [last])[..|s|] == s;
  }

  /** Filtering commutes with ordering: a sub-window of a listing is the listing of the sub-window. */
  lemma {:induction false} SelectSort<T>(s: seq<Row<T>>, p: Row<T> -> bool)
    ensures Select(SortByTs(s), p) == SortByTs(Select(s, p))
  {
    if s != [] {
      var front := s[..|s| - 1];
      SelectSort(front, p);
      SortSorts(front);
      SelectInsert(SortByTs(front), s[|s| - 1], p);
    }
  }

  // ---- aggregates ----

  /** SUM(f). */
  function Sum<T>(s: seq<T>, f: T -> int): int {
    if s == [] then 0 else Sum(s[..|s| - 1], f) + f(s[|s| - 1])
  }

  lemma {:induction false} SumSplits<T>(s: seq<T>, t: seq<T>, f: T -> int)
    ensures Sum(s + t, f) == Sum(s, f) + Sum(t, f)
    ensures |t| == 1 ==> Sum(t, f) == f(t[0])
  {
    if t == [] {
      assert s + t == s;
    } else {
      assert (s + t)[..|s + t| - 1] == s + t[..|t| - 1];
      SumSplits(s, t[..|t| - 1], f);
    }
  }

  lemma {:induction false} SumInsert<T>(s: seq<Row<T>>, x: Row<T>, f: Row<T> -> int)
    ensures Sum(InsertByTs(s, x), f) == Sum(s, f) + f(x)
  {
    if s != [] && s[|s| - 1].ts > x.ts {
      SumInsert(s[..|s| - 1], x, f);
    }
  }

  /** An aggregate does not see the order of the rows. */
  lemma {:induction false} SumSort<T>(s: seq<Row<T>>, f: Row<T> -> int)
    ensures Sum(SortByTs(s), f) == Sum(s, f)
  {
    if s != [] {
      SumSort(s[..|s| - 1], f);
      SumInsert(SortByTs(s[..|s| - 1]), s[|s| - 1], f);
    }
  }

  /** The row of greatest time, the last one among equals. */
  function Latest<T>(s: seq<Row<T>>): Option<Row<T>> {
    if s == [] then None else
    var best := Latest(s[..|s| - 1]);
    if best.None? || best.value.ts <= s[|s| - 1].ts then Some(s[|s| - 1]) else best
  }

  lemma {:induction false} LatestIsNewest<T>(s: seq<Row<T>>)
    ensures Latest(s).None? <==> s == []
    ensures Latest(s).Some? ==> Latest(s).value in s && forall r :: r in s ==> r.ts <= Latest(s).value.ts
  {
    if s != [] {
      var front := s[..|s| - 1];
      LatestIsNewest(front);
      assert s == front + [s[|s| - 1]];
    }
  }

  /** No row is newer than the i-th, and no later one is as new. */
  ghost predicate NewestAt<T>(s: seq<Row<T>>, i: nat) {
    && i < |s|
    && (forall j :: 0 <= j < |s| ==> s[j].ts <= s[i].ts)
    && (forall j :: i < j < |s| ==> s[j].ts < s[i].ts)
  }

  lemma {:induction false} LatestAt<T>(s: seq<Row<T>>) returns (i: nat)
    requires s != []
    ensures NewestAt(s, i) && Latest(s) == Some(s[i])
  {
    i := |s| - 1;
    if i > 0 {
      var k := LatestAt(s[..i]);
      if s[k].ts > s[i].ts { i := k; }
    }
  }
}
