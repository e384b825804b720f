/**
 * Filtering, truncation and the stable newest-first sort that both the
 * per-table queries (ORDER BY date DESC) and the dashboard's in-memory
 * sort by date, newest first, rely on.
 */
module Ordering {
  import opened Records

  function Min(a: int, b: int): int { if a <= b then a else b }

  /** The rows of s that satisfy p, in their order in s. */
  function Filter(s: seq<Movement>, p: Movement -> bool): (r: seq<Movement>)
    ensures |r| <= |s|
  {
    if s == [] then [] else (if p(s[0]) then [s[0]] else []) + Filter(s[1..], p)
  }

  /** Filter keeps every row satisfying p as often as it occurs in s, and no other row. */
  lemma {:induction false} FilterMultiset(s: seq<Movement>, p: Movement -> bool)
    ensures forall m :: multiset(Filter(s, p))[m] == if p(m) then multiset(s)[m] else 0
  {
    if s != [] {
      FilterMultiset(s[1..], p);
      assert s == [s[0]] + s[1..];
    }
  }

  /** A row is kept by the filter exactly when it is in s and satisfies p. */
  lemma FilterMembers(s: seq<Movement>, p: Movement -> bool)
    ensures forall m :: m in Filter(s, p) <==> m in s && p(m)
  {
    FilterMultiset(s, p);
    forall m ensures m in Filter(s, p) <==> m in s && p(m) {
      assert m in Filter(s, p) <==> multiset(Filter(s, p))[m] > 0;
      assert m in s <==> multiset(s)[m] > 0;
    }
  }

  function Active(rows: seq<Movement>): seq<Movement> { Filter(rows, IsActive) }

  /** A row is among a table's active rows exactly when it is an active row of the table. */
  lemma ActiveExactly(rows: seq<Movement>)
    ensures forall m :: m in Active(rows) <==> m in rows && m.active
  {
    FilterMembers(rows, IsActive);
  }

  function OfKind(k: Kind): Movement -> bool { (m: Movement) => m.kind == k }

  function OnDate(d: Date): Movement -> bool { (m: Movement) => m.date == d }

  /** Rows dated strictly after d. */
  function NewerThan(d: Date): Movement -> bool { (m: Movement) => !NotOlder(d, m.date) }

  /** At most the first n elements of s (a LIMIT n, or a slice [:n]). */
  function Take(s: seq<Movement>, n: nat): (r: seq<Movement>)
    ensures |r| == Min(n, |s|)
    ensures r <= s
  {
    s[..Min(n, |s|)]
  }

  /** Newest first: no element is older than one after it. */
  predicate SortedDesc(s: seq<Movement>) {
    forall i, j :: 0 <= i < j < |s| ==> NotOlder(s[i].date, s[j].date)
  }

  /** Along s the kinds never go back in KindOrder. */
  predicate KindOrdered(s: seq<Movement>) {
    forall i, j :: 0 <= i < j < |s| ==> Rank(s[i].kind) <= Rank(s[j].kind)
  }

  /**
   * Inserts x, which came before every element of s, into the newest-first s:
   * it goes in front of the first element it is not older than, so that it
   * stays ahead of elements of the same date.
   */
  function InsertByDate(x: Movement, s: seq<Movement>): (r: seq<Movement>)
    ensures multiset(r) == multiset(s) + multiset{x}
  {
    if s == [] then [x]
    else if NotOlder(x.date, s[0].date) then [x] + s
    else
      assert s == [s[0]] + s[1..];
      [s[0]] + InsertByDate(x, s[1..])
  }

  /** A stable sort, newest first: elements of equal date keep their order. */
  function SortByDateDesc(s: seq<Movement>): (r: seq<Movement>)
    ensures multiset(r) == multiset(s)
  {
    if s == [] then []
    else
      assert s == [s[0]] + s[1..];
      InsertByDate(s[0], SortByDateDesc(s[1..]))
  }

  /** A table queried for its active rows ordered by date, newest first; ties keep primary-key order. */
  function ActiveNewestFirst(rows: seq<Movement>): (r: seq<Movement>)
    ensures multiset(r) == multiset(Active(rows))
  {
    SortByDateDesc(Active(rows))
  }

  // ---- Filter ----

  lemma {:induction false} FilterConcat(a: seq<Movement>, b: seq<Movement>, p: Movement -> bool)
    ensures Filter(a + b, p) == Filter(a, p) + Filter(b, p)
  {
    if a == [] {
      assert a + b == b;
    } else {
      var h := if p(a[0]) then [a[0]] else [];
      assert (a + b)[0] == a[0];
      assert (a + b)[1..] == a[1..] + b;
      FilterConcat(a[1..], b, p);
      assert Filter(a + b, p) == h + (Filter(a[1..], p) + Filter(b, p));
      assert Filter(a, p) == h + Filter(a[1..], p);
    }
  }

  lemma {:induction false} FilterPrefix(a: seq<Movement>, s: seq<Movement>, p: Movement -> bool)
    requires a <= s
    ensures Filter(a, p) <= Filter(s, p)
  {
    if a != [] {
      assert a[1..] <= s[1..];
      FilterPrefix(a[1..], s[1..], p);
    }
  }

  /** Filtering four concatenated sequences counts the matches of each. */
  lemma FilterConcatCount(a: seq<Movement>, b: seq<Movement>, c: seq<Movement>, d: seq<Movement>, p: Movement -> bool)
    ensures |Filter(a + b + c + d, p)| == |Filter(a, p)| + |Filter(b, p)| + |Filter(c, p)| + |Filter(d, p)|
  {
    FilterConcat(a + b + c, d, p);
    FilterConcat(a + b, c, p);
    FilterConcat(a, b, p);
  }

  /** When the filter drops something, some element fails the condition. */
  lemma {:induction false} FilterMissing(s: seq<Movement>, p: Movement -> bool)
    requires |Filter(s, p)| < |s|
    ensures exists m :: m in s && !p(m)
  {
    if !p(s[0]) {
      assert s[0] in s;
    } else {
      FilterMissing(s[1..], p);
      var m :| m in s[1..] && !p(m);
      assert m in s;
    }
  }

  lemma FilterSingle(m: Movement, p: Movement -> bool)
    ensures Filter([m], p) == if p(m) then [m] else []
  {
    assert [m][1..] == [];
  }

  lemma {:induction false} FilterAll(s: seq<Movement>, p: Movement -> bool)
    requires forall m :: m in s ==> p(m)
    ensures Filter(s, p) == s
  {
    if s != [] {
      FilterAll(s[1..], p);
    }
  }

  lemma {:induction false} FilterNone(s: seq<Movement>, p: Movement -> bool)
    requires forall m :: m in s ==> !p(m)
    ensures Filter(s, p) == []
  {
    if s != [] {
      FilterNone(s[1..], p);
    }
  }

  /** Filtering keeps an order on kinds. */
  lemma {:induction false} FilterKindOrdered(s: seq<Movement>, p: Movement -> bool)
    requires KindOrdered(s)
    ensures KindOrdered(Filter(s, p))
  {
    if s != [] {
      FilterKindOrdered(s[1..], p);
      FilterMembers(s[1..], p);
      var rest := Filter(s[1..], p);
      forall m | m in rest ensures Rank(s[0].kind) <= Rank(m.kind) {
        var j :| 0 <= j < |s[1..]| && s[1..][j] == m;
        assert s[j + 1] == m;
      }
    }
  }

  // ---- the stable sort ----

  lemma {:induction false} InsertSorted(x: Movement, s: seq<Movement>)
    requires SortedDesc(s)
    ensures SortedDesc(InsertByDate(x, s))
  {
    if s != [] && !NotOlder(x.date, s[0].date) {
      InsertSorted(x, s[1..]);
      var rest := InsertByDate(x, s[1..]);
      forall m | m in rest ensures NotOlder(s[0].date, m.date) {
        assert m in multiset(rest);
        if m != x {
          assert m in multiset(s[1..]);
          var j :| 0 <= j < |s[1..]| && s[1..][j] == m;
          assert s[j + 1] == m;
        }
      }
    }
  }

  lemma {:induction false} SortSorted(s: seq<Movement>)
    ensures SortedDesc(SortByDateDesc(s))
  {
    if s != [] {
      SortSorted(s[1..]);
      InsertSorted(s[0], SortByDateDesc(s[1..]));
    }
  }

  /** Insertion leaves how many elements satisfy p as it was. */
  lemma {:induction false} InsertFilterCount(x: Movement, s: seq<Movement>, p: Movement -> bool)
    ensures |Filter(InsertByDate(x, s), p)| == |Filter([x] + s, p)|
  {
    if s != [] && !NotOlder(x.date, s[0].date) {
      InsertFilterCount(x, s[1..], p);
      assert ([s[0]] + InsertByDate(x, s[1..]))[1..] == InsertByDate(x, s[1..]);
      assert ([x] + s[1..])[1..] == s[1..];
      assert ([x] + s)[1..] == s;
    }
  }

  lemma {:induction false} SortFilterCount(s: seq<Movement>, p: Movement -> bool)
    ensures |Filter(SortByDateDesc(s), p)| == |Filter(s, p)|
  {
    if s != [] {
      SortFilterCount(s[1..], p);
      InsertFilterCount(s[0], SortByDateDesc(s[1..]), p);
      assert ([s[0]] + SortByDateDesc(s[1..]))[1..] == SortByDateDesc(s[1..]);
    }
  }

  /** Insertion keeps the elements of any one date in their order. */
  lemma {:induction false} InsertStable(x: Movement, s: seq<Movement>, d: Date)
    ensures Filter(InsertByDate(x, s), OnDate(d)) == Filter([x] + s, OnDate(d))
  {
    if s != [] && !NotOlder(x.date, s[0].date) {
      var rest := InsertByDate(x, s[1..]);
      InsertStable(x, s[1..], d);
      assert InsertByDate(x, s) == [s[0]] + rest;
      assert s == [s[0]] + s[1..];
      SwapStable(x, s[0], s[1..], rest, OnDate(d));
    }
  }

  /** Moving x past y keeps the order of the elements satisfying p when they do not both satisfy it. */
  lemma SwapStable(x: Movement, y: Movement, s: seq<Movement>, rest: seq<Movement>, p: Movement -> bool)
    requires Filter(rest, p) == Filter([x] + s, p)
    requires !(p(x) && p(y))
    ensures Filter([y] + rest, p) == Filter([x] + ([y] + s), p)
  {
    assert ([y] + rest)[1..] == rest;
    assert ([x] + s)[1..] == s;
    assert ([x] + ([y] + s))[1..] == [y] + s;
    assert ([y] + s)[1..] == s;
    var fs := Filter(s, p);
    if p(x) {
      assert Filter([y] + rest, p) == [x] + fs;
      assert Filter([x] + ([y] + s), p) == [x] + fs;
    } else {
      var fy := if p(y) then [y] else [];
      assert Filter([y] + rest, p) == fy + fs;
      assert Filter([x] + ([y] + s), p) == fy + fs;
    }
  }

  /** The sort is stable: for every date, the elements of that date keep their order. */
  lemma {:induction false} SortStable(s: seq<Movement>, d: Date)
    ensures Filter(SortByDateDesc(s), OnDate(d)) == Filter(s, OnDate(d))
  {
    if s != [] {
      SortStable(s[1..], d);
      InsertStable(s[0], SortByDateDesc(s[1..]), d);
      assert ([s[0]] + SortByDateDesc(s[1..]))[1..] == SortByDateDesc(s[1..]);
    }
  }

  /** In a newest-first sequence, an element past a prefix is no newer than one inside it. */
  lemma PrefixNotNewer(s: seq<Movement>, n: nat, x: Movement, y: Movement)
    requires SortedDesc(s) && n <= |s|
    requires x in s[..n] && y in s && y !in s[..n]
    ensures NotOlder(x.date, y.date)
  {
    var i :| 0 <= i < n && s[..n][i] == x;
    var j :| 0 <= j < |s| && s[j] == y;
    assert forall q :: 0 <= q < n ==> s[..n][q] == s[q];
  }

  /** In a newest-first sequence at most i elements are newer than the one at index i. */
  lemma SortedNewerCount(s: seq<Movement>, i: nat)
    requires SortedDesc(s) && i < |s|
    ensures |Filter(s, NewerThan(s[i].date))| <= i
  {
    var p := NewerThan(s[i].date);
    assert s == s[..i] + s[i..];
    FilterConcat(s[..i], s[i..], p);
    forall m | m in s[i..] ensures !p(m) {
      var j :| 0 <= j < |s[i..]| && s[i..][j] == m;
      assert s[i + j] == m;
    }
    FilterNone(s[i..], p);
  }

  lemma ActiveNewestFirstSorted(rows: seq<Movement>)
    ensures SortedDesc(ActiveNewestFirst(rows))
  {
    SortSorted(Active(rows));
  }

  /** Primary keys strictly increase along s. */
  predicate IdsIncreasing(s: seq<Movement>) {
    forall i, j :: 0 <= i < j < |s| ==> s[i].id < s[j].id
  }

  lemma {:induction false} FilterIdsIncreasing(s: seq<Movement>, p: Movement -> bool)
    requires IdsIncreasing(s)
    ensures IdsIncreasing(Filter(s, p))
  {
    if s != [] {
      FilterIdsIncreasing(s[1..], p);
      FilterMembers(s[1..], p);
      var rest := Filter(s[1..], p);
      forall m | m in rest ensures s[0].id < m.id {
        var j :| 0 <= j < |s[1..]| && s[1..][j] == m;
        assert s[j + 1] == m;
      }
    }
  }

  /**
   * The tie-break of a table query: the active rows of one date come out in
   * the table's own order, that is, by ascending primary key.
   */
  lemma ActiveNewestFirstTies(rows: seq<Movement>, k: Kind, d: Date)
    requires TableOk(rows, k)
    ensures Filter(ActiveNewestFirst(rows), OnDate(d)) == Filter(Active(rows), OnDate(d))
    ensures IdsIncreasing(Filter(ActiveNewestFirst(rows), OnDate(d)))
  {
    SortStable(Active(rows), d);
    assert IdsIncreasing(rows);
    FilterIdsIncreasing(rows, IsActive);
    FilterIdsIncreasing(Active(rows), OnDate(d));
  }

  /** The rows a table query returns are active rows of that table. */
  lemma ActiveNewestFirstRows(rows: seq<Movement>, k: Kind)
    requires TableOk(rows, k)
    ensures forall m :: m in ActiveNewestFirst(rows) ==> m in rows && m.active && m.kind == k
  {
    FilterMembers(rows, IsActive);
    forall m | m in ActiveNewestFirst(rows) ensures m in rows && m.active && m.kind == k {
      assert m in multiset(ActiveNewestFirst(rows));
      assert m in Active(rows);
    }
  }

  // ---- blocks of one kind each, concatenated in KindOrder ----

  lemma KindOrderedConcat(a: seq<Movement>, b: seq<Movement>)
    requires KindOrdered(a) && KindOrdered(b)
    requires forall x, y :: x in a && y in b ==> Rank(x.kind) <= Rank(y.kind)
    ensures KindOrdered(a + b)
  {
    forall i, j | 0 <= i < j < |a + b| ensures Rank((a + b)[i].kind) <= Rank((a + b)[j].kind) {
      if i < |a| && j >= |a| {
        assert (a + b)[i] in a && (a + b)[j] in b;
      }
    }
  }

  predicate AllOfKind(s: seq<Movement>, k: Kind) {
    forall m :: m in s ==> m.kind == k
  }

  /** Four blocks, one per kind in KindOrder, concatenated. */
  lemma FourBlocksOrdered(a: seq<Movement>, b: seq<Movement>, c: seq<Movement>, d: seq<Movement>)
    requires AllOfKind(a, Income) && AllOfKind(b, Expense) && AllOfKind(c, CardCharge) && AllOfKind(d, Donation)
    ensures KindOrdered(a + b + c + d)
  {
    KindOrderedConcat(a, b);
    KindOrderedConcat(a + b, c);
    KindOrderedConcat(a + b + c, d);
  }

  lemma FourBlocksOfKind(a: seq<Movement>, b: seq<Movement>, c: seq<Movement>, d: seq<Movement>, k: Kind)
    requires AllOfKind(a, Income) && AllOfKind(b, Expense) && AllOfKind(c, CardCharge) && AllOfKind(d, Donation)
    ensures Filter(a + b + c + d, OfKind(k)) == match k case Income => a case Expense => b case CardCharge => c case Donation => d
  {
    var p := OfKind(k);
    FilterConcat(a + b + c, d, p);
    FilterConcat(a + b, c, p);
    FilterConcat(a, b, p);
    BlockOfKind(a, Income, k);
    BlockOfKind(b, Expense, k);
    BlockOfKind(c, CardCharge, k);
    BlockOfKind(d, Donation, k);
  }

  lemma BlockOfKind(s: seq<Movement>, j: Kind, k: Kind)
    requires AllOfKind(s, j)
    ensures Filter(s, OfKind(k)) == if j == k then s else []
  {
    if j == k {
      FilterAll(s, OfKind(k));
    } else {
      FilterNone(s, OfKind(k));
    }
  }

}
