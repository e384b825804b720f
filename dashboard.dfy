/**
 * The dashboard: the per-kind totals over active rows, the balance, and the
 * feed of the most recent movements.
 */
module Dashboard {
  import opened Records
  import opened Ordering
  import opened RecordStore

  // ---- totals and balance ----

  /** Python's `x or 0` on a query result: NULL (and a zero sum) become 0. */
  function OrZero(v: Option<int>): int {
    match v
    case None => 0
    case Some(x) => x
  }

  /** SUM(amount) over rows: NULL on no rows. */
  function ColumnSum(rows: seq<Movement>): (r: Option<int>)
    ensures r.None? <==> rows == []
  {
    if rows == [] then None else Some(rows[0].amount + OrZero(ColumnSum(rows[1..])))
  }

  /** Reference definition: the amounts of the active rows of a table, added up. */
  function ActiveAmount(rows: seq<Movement>): int {
    if rows == [] then 0
    else (if rows[0].active then rows[0].amount else 0) + ActiveAmount(rows[1..])
  }

  lemma {:induction false} ColumnSumOfActive(rows: seq<Movement>)
    ensures OrZero(ColumnSum(Active(rows))) == ActiveAmount(rows)
  {
    if rows != [] {
      ColumnSumOfActive(rows[1..]);
      assert Active(rows) == (if rows[0].active then [rows[0]] else []) + Active(rows[1..]);
      if rows[0].active {
        var all := Active(rows);
        assert all == [rows[0]] + Active(rows[1..]);
        assert all[1..] == Active(rows[1..]);
        assert ColumnSum(all) == Some(rows[0].amount + OrZero(ColumnSum(all[1..])));
      } else {
        assert Active(rows) == Active(rows[1..]);
        assert ActiveAmount(rows) == ActiveAmount(rows[1..]);
      }
    }
  }

  lemma {:induction false} NothingActiveAmount(rows: seq<Movement>)
    ensures (forall m :: m in rows ==> !m.active) ==> ActiveAmount(rows) == 0
  {
    if rows != [] {
      NothingActiveAmount(rows[1..]);
    }
  }

  /**
   * The total of one kind: the sum over its active rows, and 0 (never
   * absent) when it has none.
   */
  function Total(rows: seq<Movement>): (r: int)
    ensures r == ActiveAmount(rows)
    ensures (forall m :: m in rows ==> !m.active) ==> r == 0
  {
    ColumnSumOfActive(rows);
    NothingActiveAmount(rows);
    OrZero(ColumnSum(Active(rows)))
  }

  datatype Totals = Totals(income: int, expense: int, card: int, donation: int, balance: int)
  {
    function Of(k: Kind): int {
      match k
      case Income => income
      case Expense => expense
      case CardCharge => card
      case Donation => donation
    }
  }

  /** +1 for the kind that adds to the balance, -1 for the three that take from it. */
  function Sign(k: Kind): int { if k == Income then 1 else -1 }

  /** The four totals and the balance: income minus the three outgoing totals. */
  function Summary(t: Tables): (r: Totals)
    ensures forall k :: r.Of(k) == ActiveAmount(t.Table(k))
    ensures r.balance == r.income - r.expense - r.card - r.donation
  {
    var income, expense, card, donation := Total(t.income), Total(t.expense), Total(t.card), Total(t.donation);
    Totals(income, expense, card, donation, income - expense - card - donation)
  }

  lemma {:induction false} ClearFlagAmount(rows: seq<Movement>, i: nat)
    requires i < |rows|
    ensures ActiveAmount(rows[i := rows[i].(active := false)]) ==
            ActiveAmount(rows) - (if rows[i].active then rows[i].amount else 0)
  {
    if i > 0 {
      ClearFlagAmount(rows[1..], i - 1);
      assert rows[i := rows[i].(active := false)][1..] == rows[1..][i - 1 := rows[i].(active := false)];
    } else {
      assert rows[i := rows[i].(active := false)][1..] == rows[1..];
    }
  }

  lemma {:induction false} AppendAmount(rows: seq<Movement>, m: Movement)
    ensures ActiveAmount(rows + [m]) == ActiveAmount(rows) + (if m.active then m.amount else 0)
  {
    if rows == [] {
      assert rows + [m] == [m];
    } else {
      AppendAmount(rows[1..], m);
      assert (rows + [m])[1..] == rows[1..] + [m];
    }
  }

  /**
   * A successful soft delete takes the row's amount out of its kind's total
   * (if it was still active) and moves the balance accordingly; the other
   * totals stay; any other outcome changes no total.
   */
  lemma SoftDeleteTotals(t: Tables, tipo: string, id: nat)
    requires WellFormed(t)
    ensures var r := SoftDelete(t, tipo, id);
      if r.outcome == Deleted then
        var k := KindNamed(tipo).value;
        var m := t.Table(k)[id - 1];
        var lost := if m.active then m.amount else 0;
        && Summary(r.tables).Of(k) == Summary(t).Of(k) - lost
        && (forall k' :: k' != k ==> Summary(r.tables).Of(k') == Summary(t).Of(k'))
        && Summary(r.tables).balance == Summary(t).balance - Sign(k) * lost
      else Summary(r.tables) == Summary(t)
  {
    var r := SoftDelete(t, tipo, id);
    if r.outcome == Deleted {
      var k := KindNamed(tipo).value;
      var rows := t.Table(k);
      FindInTable(rows, k, id);
      assert r.tables == t.WithTable(k, rows[id - 1 := rows[id - 1].(active := false)]);
      ClearFlagAmount(rows, id - 1);
    }
  }

  /**
   * Adding a movement adds its amount to its kind's total and moves the
   * balance by it; the other totals stay; a form that adds nothing changes
   * no total.
   */
  lemma AddTotals(t: Tables, f: Form)
    requires WellFormed(t)
    ensures var r := Add(t, f);
      match PlanRecord(f)
      case Insert(k, a, _, _) =>
        && Summary(r.tables).Of(k) == Summary(t).Of(k) + a
        && (forall k' :: k' != k ==> Summary(r.tables).Of(k') == Summary(t).Of(k'))
        && Summary(r.tables).balance == Summary(t).balance + Sign(k) * a
      case _ => Summary(r.tables) == Summary(t)
  {
    match PlanRecord(f)
    case Insert(k, a, d, s) =>
      AppendAmount(t.Table(k), Movement(k, |t.Table(k)| + 1, a, d, s, true));
    case _ =>
  }

  // ---- the recent feed ----

  const FeedLimit: nat := 5

  /** A table's query for the feed: its active rows, newest first, at most FeedLimit of them. */
  function Latest(rows: seq<Movement>): (r: seq<Movement>)
    ensures |r| <= FeedLimit
    ensures r <= ActiveNewestFirst(rows)
  {
    Take(ActiveNewestFirst(rows), FeedLimit)
  }

  /** The per-kind query results of the first n kinds of KindOrder, concatenated in that order. */
  function Candidates(t: Tables, n: nat): (r: seq<Movement>)
    requires n <= |KindOrder|
    ensures |r| <= FeedLimit * n
  {
    if n == 0 then [] else Candidates(t, n - 1) + Latest(t.Table(KindOrder[n - 1]))
  }

  /** The feed: the candidates of every kind, stably sorted newest first, cut to FeedLimit. */
  function Recent(t: Tables): (r: seq<Movement>)
    ensures |r| <= FeedLimit
    ensures r <= SortByDateDesc(Candidates(t, |KindOrder|))
  {
    Take(SortByDateDesc(Candidates(t, |KindOrder|)), FeedLimit)
  }

  /** The feed-building loop of the dashboard handler. */
  method RecentFeed(t: Tables) returns (feed: seq<Movement>)
    ensures feed == Recent(t)
  {
    var movs: seq<Movement> := [];
    for i := 0 to |KindOrder|
      invariant movs == Candidates(t, i)
    {
      movs := movs + Latest(t.Table(KindOrder[i]));
    }
    movs := SortByDateDesc(movs);
    feed := movs[..Min(FeedLimit, |movs|)];
  }

  /** The feed's candidates are the four per-kind query results, in KindOrder. */
  lemma CandidatesBlocks(t: Tables)
    ensures Candidates(t, |KindOrder|) == Latest(t.income) + Latest(t.expense) + Latest(t.card) + Latest(t.donation)
  {
    assert Candidates(t, 1) == Latest(t.income);
    assert Candidates(t, 2) == Latest(t.income) + Latest(t.expense);
    assert Candidates(t, 3) == Latest(t.income) + Latest(t.expense) + Latest(t.card);
  }

  /** A table's feed query returns at most FeedLimit of its active rows, newest first. */
  lemma LatestFacts(rows: seq<Movement>, k: Kind)
    requires TableOk(rows, k)
    ensures |Latest(rows)| == Min(FeedLimit, |Active(rows)|)
    ensures forall m :: m in Latest(rows) ==> m in rows && m.active && m.kind == k
    ensures SortedDesc(Latest(rows))
  {
    var all := ActiveNewestFirst(rows);
    ActiveNewestFirstRows(rows, k);
    ActiveNewestFirstSorted(rows);
    assert |all| == |multiset(Active(rows))| == |Active(rows)|;
    var l := Take(all, FeedLimit);
    assert l == all[..|l|];
    forall m | m in l ensures m in rows && m.active && m.kind == k {
      assert m in all;
    }
    forall i, j | 0 <= i < j < |l| ensures NotOlder(l[i].date, l[j].date) {
      assert l[i] == all[i] && l[j] == all[j];
    }
  }

  /** Every active row a table's feed query leaves out is no newer than any row it returns. */
  lemma LatestAreNewest(rows: seq<Movement>)
    ensures forall x, y :: x in Latest(rows) && y in Active(rows) && y !in Latest(rows) ==> NotOlder(x.date, y.date)
  {
    var all := ActiveNewestFirst(rows);
    ActiveNewestFirstSorted(rows);
    forall x, y | x in Latest(rows) && y in Active(rows) && y !in Latest(rows) ensures NotOlder(x.date, y.date) {
      assert y in multiset(all);
      assert Latest(rows) == all[..|Latest(rows)|];
      PrefixNotNewer(all, |Latest(rows)|, x, y);
    }
  }

  /** The candidates come in KindOrder, and are active rows of their kind's table. */
  lemma CandidatesFacts(t: Tables)
    requires WellFormed(t)
    ensures KindOrdered(Candidates(t, |KindOrder|))
    ensures forall m :: m in Candidates(t, |KindOrder|) ==> m.active && m in t.Table(m.kind)
  {
    CandidatesBlocks(t);
    LatestFacts(t.income, Income);
    LatestFacts(t.expense, Expense);
    LatestFacts(t.card, CardCharge);
    LatestFacts(t.donation, Donation);
    FourBlocksOrdered(Latest(t.income), Latest(t.expense), Latest(t.card), Latest(t.donation));
  }

  /** Filtered by kind, the candidates are that kind's query result. */
  lemma CandidatesOfKind(t: Tables, k: Kind)
    requires WellFormed(t)
    ensures Filter(Candidates(t, |KindOrder|), OfKind(k)) == Latest(t.Table(k))
  {
    CandidatesBlocks(t);
    LatestFacts(t.income, Income);
    LatestFacts(t.expense, Expense);
    LatestFacts(t.card, CardCharge);
    LatestFacts(t.donation, Donation);
    FourBlocksOfKind(Latest(t.income), Latest(t.expense), Latest(t.card), Latest(t.donation), k);
  }

  /**
   * The feed holds FeedLimit movements, or all the candidates when there are
   * fewer; a kind contributes at most FeedLimit of its active rows.
   */
  lemma RecentSize(t: Tables)
    requires WellFormed(t)
    ensures |Recent(t)| == Min(FeedLimit,
      Min(FeedLimit, |Active(t.income)|) + Min(FeedLimit, |Active(t.expense)|) +
      Min(FeedLimit, |Active(t.card)|) + Min(FeedLimit, |Active(t.donation)|))
  {
    CandidatesBlocks(t);
    LatestFacts(t.income, Income);
    LatestFacts(t.expense, Expense);
    LatestFacts(t.card, CardCharge);
    LatestFacts(t.donation, Donation);
    var c := Candidates(t, |KindOrder|);
    assert |multiset(SortByDateDesc(c))| == |multiset(c)|;
  }

  /** Every movement in the feed is an active row of its kind's table. */
  lemma RecentRows(t: Tables)
    requires WellFormed(t)
    ensures forall m :: m in Recent(t) ==> m.active && m in t.Table(m.kind)
  {
    CandidatesFacts(t);
    var c := Candidates(t, |KindOrder|);
    forall m | m in Recent(t) ensures m.active && m in t.Table(m.kind) {
      assert m in multiset(SortByDateDesc(c));
      assert m in c;
    }
  }

  /** The feed is newest first. */
  lemma RecentSorted(t: Tables)
    ensures SortedDesc(Recent(t))
  {
    SortSorted(Candidates(t, |KindOrder|));
  }

  /** No kind has more than FeedLimit movements in the feed, nor more than it has active rows. */
  lemma RecentPerKind(t: Tables, k: Kind)
    requires WellFormed(t)
    ensures |Filter(Recent(t), OfKind(k))| <= Min(FeedLimit, |Active(t.Table(k))|)
  {
    var c := Candidates(t, |KindOrder|);
    var sorted := SortByDateDesc(c);
    CandidatesOfKind(t, k);
    FilterPrefix(Recent(t), sorted, OfKind(k));
    SortFilterCount(c, OfKind(k));
    WellFormedTable(t, k);
    LatestFacts(t.Table(k), k);
  }

  /**
   * Movements of the feed that share a date appear in KindOrder (income,
   * expense, card charge, donation), because the sort keeps equal dates in
   * the order of the candidates.
   */
  lemma RecentTies(t: Tables, d: Date)
    requires WellFormed(t)
    ensures KindOrdered(Filter(Recent(t), OnDate(d)))
  {
    var c := Candidates(t, |KindOrder|);
    var sorted := SortByDateDesc(c);
    CandidatesFacts(t);
    FilterPrefix(Recent(t), sorted, OnDate(d));
    SortStable(c, d);
    FilterKindOrdered(c, OnDate(d));
  }

  /**
   * The feed keeps the newest movements: no active row of any table that is
   * left out of the feed is newer than a movement in it. Because each kind's
   * query is limited to as many rows as the feed itself, the two-stage
   * selection is a true top FeedLimit of all active rows.
   */
  lemma RecentAreNewest(t: Tables)
    requires WellFormed(t)
    ensures forall x, y: Movement :: x in Recent(t) && y in t.Table(y.kind) && y.active && y !in Recent(t) ==> NotOlder(x.date, y.date)
  {
    forall x, y: Movement | x in Recent(t) && y in t.Table(y.kind) && y.active && y !in Recent(t) ensures NotOlder(x.date, y.date) {
      if y in Candidates(t, |KindOrder|) {
        CutCandidateNotNewer(t, x, y);
      } else {
        ActiveExactly(t.Table(y.kind));
        LeftOutNotNewer(t, x, y);
      }
    }
  }

  /** A candidate the feed cuts off is no newer than a movement it keeps. */
  lemma CutCandidateNotNewer(t: Tables, x: Movement, y: Movement)
    requires x in Recent(t) && y in Candidates(t, |KindOrder|) && y !in Recent(t)
    ensures NotOlder(x.date, y.date)
  {
    var c := Candidates(t, |KindOrder|);
    var s := SortByDateDesc(c);
    SortSorted(c);
    assert y in multiset(s);
    assert Recent(t) == s[..|Recent(t)|];
    PrefixNotNewer(s, |Recent(t)|, x, y);
  }

  /** Fewer than FeedLimit candidates are newer than any movement of the feed. */
  lemma FewNewerCandidates(t: Tables, x: Movement)
    requires x in Recent(t)
    ensures |Filter(Candidates(t, |KindOrder|), NewerThan(x.date))| < FeedLimit
  {
    var c := Candidates(t, |KindOrder|);
    var s := SortByDateDesc(c);
    var r := Recent(t);
    SortSorted(c);
    var i :| 0 <= i < |r| && r[i] == x;
    assert s[i] == x;
    SortedNewerCount(s, i);
    SortFilterCount(c, NewerThan(x.date));
  }

  /**
   * An active row its own kind's query left out is no newer than a movement
   * of the feed: that query returned FeedLimit rows, none newer than it, and
   * not all of them can be newer than the feed's movement.
   */
  lemma LeftOutNotNewer(t: Tables, x: Movement, y: Movement)
    requires WellFormed(t)
    requires x in Recent(t) && y in Active(t.Table(y.kind)) && y !in Candidates(t, |KindOrder|)
    ensures NotOlder(x.date, y.date)
  {
    var l := Latest(t.Table(y.kind));
    CandidatesOfKind(t, y.kind);
    FilterMembers(Candidates(t, |KindOrder|), OfKind(y.kind));
    assert y !in l;
    LatestFull(t, y);
    FewNewerCandidates(t, x);
    KindNewerCount(t, y.kind, NewerThan(x.date));
    LatestAreNewest(t.Table(y.kind));
    FewNewerInBlock(l, x, y);
  }

  /**
   * If fewer elements of l are newer than x than l has, and none of l is
   * older than y, then y is no newer than x.
   */
  lemma FewNewerInBlock(l: seq<Movement>, x: Movement, y: Movement)
    requires |Filter(l, NewerThan(x.date))| < |l|
    requires forall z :: z in l ==> NotOlder(z.date, y.date)
    ensures NotOlder(x.date, y.date)
  {
    FilterMissing(l, NewerThan(x.date));
    var z :| z in l && !NewerThan(x.date)(z);
    assert NotOlder(z.date, y.date);
  }

  /** A kind's feed query that leaves one of its active rows out returns FeedLimit rows. */
  lemma LatestFull(t: Tables, y: Movement)
    requires WellFormed(t)
    requires y in Active(t.Table(y.kind)) && y !in Latest(t.Table(y.kind))
    ensures |Latest(t.Table(y.kind))| == FeedLimit
  {
    var rows := t.Table(y.kind);
    var l := Latest(rows);
    var all := ActiveNewestFirst(rows);
    WellFormedTable(t, y.kind);
    LatestFacts(rows, y.kind);
    assert y in multiset(Active(rows));
    assert y in all;
    assert |l| == |all| ==> l == all;
  }

  /** No more rows of one kind's query satisfy p than candidates do. */
  lemma KindNewerCount(t: Tables, k: Kind, p: Movement -> bool)
    ensures |Filter(Latest(t.Table(k)), p)| <= |Filter(Candidates(t, |KindOrder|), p)|
  {
    CandidatesBlocks(t);
    FilterConcatCount(Latest(t.income), Latest(t.expense), Latest(t.card), Latest(t.donation), p);
  }

  /** After a successful soft delete the row no longer appears in the feed. */
  lemma SoftDeleteLeavesFeed(t: Tables, tipo: string, id: nat)
    requires WellFormed(t)
    ensures var r := SoftDelete(t, tipo, id);
      r.outcome == Deleted ==> forall m :: m in Recent(r.tables) ==> !(m.kind == KindNamed(tipo).value && m.id == id)
  {
    var r := SoftDelete(t, tipo, id);
    if r.outcome == Deleted {
      var k := KindNamed(tipo).value;
      RecentRows(r.tables);
      WellFormedTable(r.tables, k);
      forall m | m in Recent(r.tables) && m.kind == k ensures m.id != id {
        var j :| 0 <= j < |r.tables.Table(k)| && r.tables.Table(k)[j] == m;
        assert r.tables.Table(k)[id - 1].active == false;
      }
    }
  }
}
