/**
 * The admin dashboard: document counts, revenue per invoice status folded
 * into total, pending and paid revenue, and paid revenue per calendar month
 * labelled `"<year>-<month>"`.
 */
module AdminRoutes {
  import opened Text
  import opened Calendar
  import opened Models
  import opened Grouping
  import Db

  /**
   * The invoices in scan order, as an aggregation reads them: one entry per
   * stored id, since the scan lists each id once, in increasing order.
   */
  function AllInvoices(invoices: map<Id, Invoice>, nextId: Id): (r: seq<Invoice>)
    ensures var ids := Db.Scan(invoices, (i: Invoice) => true, nextId);
      |r| == |ids| && forall k :: 0 <= k < |r| ==> r[k] == invoices[ids[k]]
    ensures forall i :: 0 <= i < |r| ==> r[i] in invoices.Values
    ensures forall id :: id in invoices && id < nextId ==> invoices[id] in r
  {
    var ids := Db.Scan(invoices, (i: Invoice) => true, nextId);
    var r := seq(|ids|, i requires 0 <= i < |ids| => invoices[ids[i]]);
    forall id | id in invoices && id < nextId ensures invoices[id] in r {
      var k :| 0 <= k < |ids| && ids[k] == id;
      assert r[k] == invoices[id];
    }
    r
  }

  // ------------------------------------------------------------------ stats

  datatype Stats = Stats(totalUsers: nat, totalInvoices: nat)

  /** `/stats`: `countDocuments` of the users and of the invoices. */
  function GetStats(users: map<Id, User>, invoices: map<Id, Invoice>): Stats {
    Stats(|users|, |invoices|)
  }

  /** Saving a new invoice raises the invoice count by one; deleting one lowers it by one. */
  lemma StatsCountInvoices(users: map<Id, User>, invoices: map<Id, Invoice>, id: Id, inv: Invoice)
    ensures id !in invoices ==>
      GetStats(users, invoices[id := inv]) == GetStats(users, invoices).(totalInvoices := |invoices| + 1)
    ensures id in invoices ==>
      GetStats(users, invoices - {id}) == GetStats(users, invoices).(totalInvoices := |invoices| - 1)
  {
    if id in invoices {
      assert invoices.Keys == (invoices - {id}).Keys + {id};
    }
  }

  // ------------------------------------------------------- revenue by status

  function Status(i: Invoice): string {
    i.status
  }

  function Amount(i: Invoice): real {
    i.amount
  }

  /** `aggregate([{ $group: { _id: "$status", totalAmount: { $sum: "$amount" } } }])`. */
  function RevenueByStatus(invoices: seq<Invoice>): (r: seq<(string, real)>)
    ensures forall j :: 0 <= j < |r| ==> r[j].1 == SumBy(invoices, Status, Amount, r[j].0)
    ensures forall i, j :: 0 <= i < j < |r| ==> r[i].0 != r[j].0
    ensures forall i :: 0 <= i < |invoices| ==> exists j :: 0 <= j < |r| && r[j].0 == invoices[i].status
  {
    var r := GroupBy(invoices, Status, Amount);
    forall i | 0 <= i < |invoices| ensures exists j :: 0 <= j < |r| && r[j].0 == invoices[i].status {
      GroupByCovers(invoices, Status, Amount, i);
    }
    r
  }

  /**
   * The `forEach` over the status groups: every group adds to the total, and
   * the groups for pending and paid set those two figures.
   */
  method RevenueTotals(stats: seq<(string, real)>) returns (total: real, pending: real, paid: real)
    ensures total == SumValues(stats)
    ensures pending == LastValue(stats, Pending)
    ensures paid == LastValue(stats, Paid)
  {
    total, pending, paid := 0.0, 0.0, 0.0;
    for i := 0 to |stats|
      invariant total == SumValues(stats[..i])
      invariant pending == LastValue(stats[..i], Pending)
      invariant paid == LastValue(stats[..i], Paid)
    {
      assert stats[..i + 1][..i] == stats[..i];
      var stat := stats[i];
      total := total + stat.1;
      if stat.0 == Pending {
        pending := stat.1;
      } else if stat.0 == Paid {
        paid := stat.1;
      }
    }
    assert stats[..|stats|] == stats;
  }

  /** The status groups add up to the sum over all invoices. */
  lemma RevenueTotalIsSum(invoices: seq<Invoice>)
    ensures SumValues(RevenueByStatus(invoices)) == SumAll(invoices, Amount)
  {
    GroupByKeepsTotal(invoices, Status, Amount);
  }

  /** The figure read for a status is the sum over the invoices with it, 0 when there are none. */
  lemma RevenueForStatus(invoices: seq<Invoice>, status: string)
    ensures LastValue(RevenueByStatus(invoices), status) == SumBy(invoices, Status, Amount, status)
  {
    var ks := KeysOf(invoices, Status);
    LastValueOfGroups(ks, invoices, Status, Amount, status);
    if status !in ks {
      SumByAbsent(invoices, Status, Amount, status);
    }
  }

  /** When every status is pending or paid, the total is pending plus paid revenue. */
  lemma {:induction false} TotalIsPendingPlusPaid(invoices: seq<Invoice>)
    requires forall i :: 0 <= i < |invoices| ==> invoices[i].status == Pending || invoices[i].status == Paid
    ensures SumAll(invoices, Amount) == SumBy(invoices, Status, Amount, Pending) + SumBy(invoices, Status, Amount, Paid)
    decreases |invoices|
  {
    if invoices != [] {
      var init := invoices[..|invoices| - 1];
      assert forall i :: 0 <= i < |init| ==> init[i] == invoices[i];
      TotalIsPendingPlusPaid(init);
    }
  }

  // ------------------------------------------------------ revenue by month

  /** `$year` and `$month` of `createdAt`. */
  function MonthOf(i: Invoice): (int, int) {
    (i.createdAt.year, i.createdAt.month)
  }

  /** The `$sort: { "_id.year": 1, "_id.month": 1 }` order. */
  predicate MonthBefore(a: (int, int), b: (int, int)) {
    a.0 < b.0 || (a.0 == b.0 && a.1 < b.1)
  }

  predicate StrictlyIncreasing(ms: seq<(int, int)>) {
    forall i, j :: 0 <= i < j < |ms| ==> MonthBefore(ms[i], ms[j])
  }

  function InsertMonth(m: (int, int), ms: seq<(int, int)>): (r: seq<(int, int)>)
    requires StrictlyIncreasing(ms) && m !in ms
    ensures StrictlyIncreasing(r)
    ensures forall x :: x in r <==> x == m || x in ms
    ensures |r| == |ms| + 1
    decreases |ms|
  {
    if ms == [] then [m]
    else if MonthBefore(m, ms[0]) then [m] + ms
    else
      var rest := InsertMonth(m, ms[1..]);
      assert forall x :: x in ms[1..] ==> x in ms;
      assert forall x :: x in rest ==> MonthBefore(ms[0], x) by {
        forall x | x in rest ensures MonthBefore(ms[0], x) {
          if x != m {
            var k :| 0 <= k < |ms[1..]| && ms[1..][k] == x;
            assert ms[k + 1] == x;
          }
        }
      }
      assert ms == [ms[0]] + ms[1..];
      [ms[0]] + rest
  }

  function SortMonths(ms: seq<(int, int)>): (r: seq<(int, int)>)
    requires Distinct(ms)
    ensures StrictlyIncreasing(r)
    ensures forall x :: x in r <==> x in ms
    decreases |ms|
  {
    if ms == [] then []
    else
      var init := ms[..|ms| - 1];
      assert ms == init + [ms[|ms| - 1]];
      InsertMonth(ms[|ms| - 1], SortMonths(init))
  }

  /** The paid invoices (`$match: { status: 'paid' }`). */
  function PaidInvoices(invoices: seq<Invoice>): (r: seq<Invoice>)
    ensures forall i :: 0 <= i < |r| ==> r[i].status == Paid && r[i] in invoices
    ensures forall i :: 0 <= i < |invoices| && invoices[i].status == Paid ==> invoices[i] in r
  {
    Matching(invoices, Status, Paid)
  }

  /** The months that have paid invoices, in calendar order, each once. */
  function PaidMonths(invoices: seq<Invoice>): (ms: seq<(int, int)>)
    ensures StrictlyIncreasing(ms)
    ensures forall i :: 0 <= i < |invoices| && invoices[i].status == Paid ==> MonthOf(invoices[i]) in ms
    ensures forall m :: m in ms ==> exists i :: 0 <= i < |invoices| && invoices[i].status == Paid && MonthOf(invoices[i]) == m
  {
    var ks := KeysOf(PaidInvoices(invoices), MonthOf);
    forall i | 0 <= i < |invoices| && invoices[i].status == Paid ensures MonthOf(invoices[i]) in ks {
      PaidMonthListed(invoices, i);
    }
    forall m | m in ks
      ensures exists i :: 0 <= i < |invoices| && invoices[i].status == Paid && MonthOf(invoices[i]) == m
    {
      PaidMonthWitness(invoices, m);
    }
    SortMonths(ks)
  }

  lemma PaidMonthListed(invoices: seq<Invoice>, i: nat)
    requires i < |invoices| && invoices[i].status == Paid
    ensures MonthOf(invoices[i]) in KeysOf(PaidInvoices(invoices), MonthOf)
  {
    var paid := PaidInvoices(invoices);
    assert invoices[i] in paid;
    var k :| 0 <= k < |paid| && paid[k] == invoices[i];
  }

  lemma PaidMonthWitness(invoices: seq<Invoice>, m: (int, int))
    requires m in KeysOf(PaidInvoices(invoices), MonthOf)
    ensures exists i :: 0 <= i < |invoices| && invoices[i].status == Paid && MonthOf(invoices[i]) == m
  {
    var paid := PaidInvoices(invoices);
    var ks := KeysOf(paid, MonthOf);
    var j :| 0 <= j < |ks| && ks[j] == m;
    var k :| 0 <= k < |paid| && MonthOf(paid[k]) == ks[j];
    assert paid[k] in invoices && paid[k].status == Paid;
    var i :| 0 <= i < |invoices| && invoices[i] == paid[k];
    assert invoices[i].status == Paid && MonthOf(invoices[i]) == m;
  }

  /** The `$concat` of `$toString` of the year, a dash, and `$toString` of the month. */
  function Label(m: (int, int)): string {
    IntToString(m.0) + "-" + IntToString(m.1)
  }

  lemma DigitsHaveNoDash(s: string)
    requires AllDigits(s)
    ensures '-' !in s
  {
  }

  /** Labels do not clash: the month is not zero-padded, but the dash keeps year and month apart. */
  lemma LabelInjective(a: (int, int), b: (int, int))
    requires a.0 >= 0 && b.0 >= 0 && a.1 >= 0 && b.1 >= 0
    requires Label(a) == Label(b)
    ensures a == b
  {
    var ya, yb := NatToString(a.0), NatToString(b.0);
    DigitsHaveNoDash(ya);
    DigitsHaveNoDash(yb);
    BeforeFirstOf(ya, '-', IntToString(a.1));
    BeforeFirstOf(yb, '-', IntToString(b.1));
    assert Label(a) == ya + ['-'] + IntToString(a.1);
    assert Label(b) == yb + ['-'] + IntToString(b.1);
    NatToStringInjective(a.0, b.0);
    assert Label(a)[|ya| + 1..] == NatToString(a.1);
    assert Label(b)[|yb| + 1..] == NatToString(b.1);
    NatToStringInjective(a.1, b.1);
  }

  /** October 2025 is labelled "2025-10", and March 2025 "2025-3". */
  lemma LabelExamples()
    ensures Label((2025, 10)) == "2025-10"
    ensures Label((2025, 3)) == "2025-3"
  {
  }

  /** An entry of `monthlyRevenue`. */
  datatype MonthEntry = MonthEntry(name: string, revenue: real)

  /** The `$project` stage: each group named by its label. */
  function Project(g: seq<((int, int), real)>): (r: seq<MonthEntry>)
    ensures |r| == |g|
    ensures forall i :: 0 <= i < |g| ==> r[i] == MonthEntry(Label(g[i].0), g[i].1)
    decreases |g|
  {
    if g == [] then []
    else
      var init := Project(g[..|g| - 1]);
      ProjectStep(g, init);
      init + [MonthEntry(Label(g[|g| - 1].0), g[|g| - 1].1)]
  }

  lemma ProjectStep(g: seq<((int, int), real)>, init: seq<MonthEntry>)
    requires g != [] && |init| == |g| - 1
    requires forall i :: 0 <= i < |g| - 1 ==> init[i] == MonthEntry(Label(g[..|g| - 1][i].0), g[..|g| - 1][i].1)
    ensures var r := init + [MonthEntry(Label(g[|g| - 1].0), g[|g| - 1].1)];
      forall i :: 0 <= i < |g| ==> r[i] == MonthEntry(Label(g[i].0), g[i].1)
  {
    var r := init + [MonthEntry(Label(g[|g| - 1].0), g[|g| - 1].1)];
    forall i | 0 <= i < |g| ensures r[i] == MonthEntry(Label(g[i].0), g[i].1) {
      if i < |g| - 1 {
        assert r[i] == init[i] && g[..|g| - 1][i] == g[i];
      }
    }
  }

  /** `monthlyRevenue`: per month with paid invoices, in order, the sum of their amounts. */
  function MonthlyRevenue(invoices: seq<Invoice>): (r: seq<MonthEntry>)
    ensures |r| == |PaidMonths(invoices)|
    ensures forall i :: 0 <= i < |r| ==>
      r[i] == MonthEntry(Label(PaidMonths(invoices)[i]), SumBy(PaidInvoices(invoices), MonthOf, Amount, PaidMonths(invoices)[i]))
  {
    Project(Groups(PaidMonths(invoices), PaidInvoices(invoices), MonthOf, Amount))
  }

  function SumRevenue(entries: seq<MonthEntry>): real
    decreases |entries|
  {
    if entries == [] then 0.0 else SumRevenue(entries[..|entries| - 1]) + entries[|entries| - 1].revenue
  }

  lemma {:induction false} SumRevenueProject(g: seq<((int, int), real)>)
    ensures SumRevenue(Project(g)) == SumValues(g)
    decreases |g|
  {
    if g != [] {
      assert Project(g)[..|g| - 1] == Project(g[..|g| - 1]);
      SumRevenueProject(g[..|g| - 1]);
    }
  }

  /** The monthly figures add up to the paid revenue: every paid invoice is in exactly one month. */
  lemma MonthlyRevenueAddsUp(invoices: seq<Invoice>)
    ensures SumRevenue(MonthlyRevenue(invoices)) == SumBy(invoices, Status, Amount, Paid)
  {
    var paid := PaidInvoices(invoices);
    var ms := PaidMonths(invoices);
    SumRevenueProject(Groups(ms, paid, MonthOf, Amount));
    forall i | 0 <= i < |paid| ensures MonthOf(paid[i]) in ms {
      var k :| 0 <= k < |invoices| && invoices[k] == paid[i];
    }
    Regroup(ms, paid, MonthOf, Amount);
    SumAllMatching(invoices, Status, Amount, Paid);
  }

  // --------------------------------------------------------- dashboard-data

  datatype Dashboard = Dashboard(
    totalUsers: nat, totalClients: nat,
    totalRevenue: real, pendingRevenue: real, paidRevenue: real,
    monthlyRevenue: seq<MonthEntry>)

  /**
   * `/dashboard-data`, over the invoices in scan order.  With every id below
   * `nextId`, as the store keeps them, the scan reads every stored invoice.
   */
  method DashboardData(users: map<Id, User>, clients: map<Id, Client>, invoices: map<Id, Invoice>, nextId: Id)
    returns (d: Dashboard)
    requires Db.KeysBelow(invoices, nextId)
    ensures var all := AllInvoices(invoices, nextId);
      && d.totalUsers == |users| && d.totalClients == |clients|
      && d.totalRevenue == SumAll(all, Amount)
      && d.pendingRevenue == SumBy(all, Status, Amount, Pending)
      && d.paidRevenue == SumBy(all, Status, Amount, Paid)
      && d.monthlyRevenue == MonthlyRevenue(all)
  {
    var all := AllInvoices(invoices, nextId);
    var stats := RevenueByStatus(all);
    var total, pending, paid := RevenueTotals(stats);
    RevenueTotalIsSum(all);
    RevenueForStatus(all, Pending);
    RevenueForStatus(all, Paid);
    d := Dashboard(|users|, |clients|, total, pending, paid, MonthlyRevenue(all));
  }
}
