/**
 The admin dashboard's figures: table counts, the number of paid and completed
 registrations, the revenue they brought in, the conversion rate, the five
 newest registrations and the next five open workshops.
 */
module Dashboard {
  import opened Js
  import opened Schema
  import opened Listing
  import opened MapSum
  import opened RegistrationActions
  import opened WorkshopActions

  /** The ids of the paid and completed registrations. */
  function PaidIds(regs: map<RegistrationId, Registration>): (ids: set<RegistrationId>)
    ensures forall id :: id in ids <==> id in regs && Settled(regs[id])
  {
    set id | id in regs && Settled(regs[id])
  }

  /** The paid and completed registrations, as a table of their own. */
  function PaidTable(regs: map<RegistrationId, Registration>): (t: map<RegistrationId, Registration>)
    ensures t.Keys == PaidIds(regs)
    ensures forall id :: id in t ==> t[id] == regs[id]
  {
    map id | id in PaidIds(regs) :: regs[id]
  }

  /** A registration's contribution to `_sum.pricePaid`: a null price adds nothing. */
  function PricePaidOrZero(r: Registration): real {
    if r.pricePaid.Some? then r.pricePaid.value else 0.0
  }

  /** Only paid and completed registrations count, so there are never more of them than registrations. */
  lemma PaidAtMostTotal(regs: map<RegistrationId, Registration>)
    ensures |PaidIds(regs)| <= |regs|
  {
    var paid := PaidIds(regs);
    assert regs.Keys == paid + (regs.Keys - paid);
  }

  /** The revenue: the paid and completed registrations' prices, 0 when there are none. */
  method TotalRevenue(regs: map<RegistrationId, Registration>) returns (total: real)
    ensures total == Sum(PaidTable(regs), PricePaidOrZero)
  {
    var rest := PaidTable(regs);
    total := 0.0;
    while rest != map[]
      invariant total + Sum(rest, PricePaidOrZero) == Sum(PaidTable(regs), PricePaidOrZero)
      decreases |rest|
    {
      var k :| k in rest;
      SumRemove(rest, k, PricePaidOrZero);
      total := total + PricePaidOrZero(rest[k]);
      assert (rest - {k}).Keys == rest.Keys - {k};
      rest := rest - {k};
    }
  }

  /** With no paid registration the revenue is 0. */
  lemma NoPaidNoRevenue(regs: map<RegistrationId, Registration>)
    requires PaidIds(regs) == {}
    ensures Sum(PaidTable(regs), PricePaidOrZero) == 0.0
  {
    assert PaidTable(regs) == map[];
  }

  /** The revenue is never negative while every recorded price is non-negative. */
  lemma RevenueNonNegative(regs: map<RegistrationId, Registration>)
    requires forall id :: id in regs && regs[id].pricePaid.Some? ==> regs[id].pricePaid.value >= 0.0
    ensures Sum(PaidTable(regs), PricePaidOrZero) >= 0.0
  {
    SumNonNegative(PaidTable(regs), PricePaidOrZero);
  }

  /** The conversion rate in percent; 0 while there are no registrations. */
  function ConversionRate(paid: nat, total: nat): (r: real)
    ensures total == 0 ==> r == 0.0
    ensures total > 0 ==> r * total as real == paid as real * 100.0
  {
    if total > 0 then paid as real / total as real * 100.0 else 0.0
  }

  /** With paid at most total the rate is a percentage, and it is 100 exactly when everyone has paid. */
  lemma ConversionRateBounds(paid: nat, total: nat)
    requires paid <= total
    ensures 0.0 <= ConversionRate(paid, total) <= 100.0
    ensures ConversionRate(paid, total) == 100.0 <==> total > 0 && paid == total
    ensures ConversionRate(paid, total) == 0.0 <==> paid == 0
  {
    if total > 0 {
      var r := ConversionRate(paid, total);
      assert r * total as real == paid as real * 100.0;
      assert r * total as real <= total as real * 100.0;
    }
  }

  function Min(a: nat, b: nat): nat {
    if a <= b then a else b
  }

  /** Open workshops dated now or later. */
  function Upcoming(w: Workshop, now: int): (upcoming: bool)
    ensures upcoming ==> w.isOpen && now <= w.date
    ensures !w.isOpen || w.date < now ==> !upcoming
  {
    w.isOpen && w.date >= now
  }

  /** The upcoming workshops with their registration counts. */
  function UpcomingTable(db: Db, now: int): (t: map<WorkshopId, Summary>)
    ensures forall id :: id in t <==> id in db.workshops && Upcoming(db.workshops[id], now)
    ensures forall id :: id in t ==> t[id] == Summaries(db)[id]
  {
    map id | id in db.workshops && Upcoming(db.workshops[id], now) :: Summaries(db)[id]
  }

  /** Sorting by the negated date lists the earliest date first. */
  function NegDate(s: Summary): int {
    -s.workshop.date
  }

  datatype Stats = Stats(
    totalUsers: nat,
    totalWorkshops: nat,
    totalRegistrations: nat,
    paidRegistrations: nat,
    totalRevenue: real,
    recent: seq<(RegistrationId, Registration)>,
    upcoming: seq<(WorkshopId, Summary)>)

  /** The first `n` rows of a listing are still a distinct, ordered part of the same table. */
  lemma TakeKeepsListing<K, V>(rows: seq<(K, V)>, m: map<K, V>, key: V -> int, n: nat)
    requires Lists(rows, m) && Descending(rows, key) && n <= |rows|
    ensures DistinctKeys(rows[..n]) && FromMap(rows[..n], m) && Descending(rows[..n], key)
  {
  }

  /** The five newest registrations, newest first. */
  method RecentRegistrations(regs: map<RegistrationId, Registration>) returns (rows: seq<(RegistrationId, Registration)>)
    ensures |rows| == Min(5, |regs|)
    ensures DistinctKeys(rows) && FromMap(rows, regs) && Descending(rows, RegisteredAt)
    ensures forall k, i :: k in regs && k !in KeysOf(rows) && 0 <= i < |rows| ==>
              regs[k].registeredAt <= rows[i].1.registeredAt
  {
    var all := ListBy(regs, RegisteredAt);
    var n := Min(5, |all|);
    PrefixIsTop(all, regs, RegisteredAt, n);
    TakeKeepsListing(all, regs, RegisteredAt, n);
    rows := all[..n];
  }

  /** The five earliest upcoming workshops, earliest first. */
  method UpcomingWorkshops(db: Db, now: int) returns (rows: seq<(WorkshopId, Summary)>)
    ensures |rows| == Min(5, |UpcomingTable(db, now)|)
    ensures DistinctKeys(rows) && FromMap(rows, UpcomingTable(db, now))
    ensures forall i, j :: 0 <= i < j < |rows| ==> rows[i].1.workshop.date <= rows[j].1.workshop.date
    ensures forall k, i :: k in UpcomingTable(db, now) && k !in KeysOf(rows) && 0 <= i < |rows| ==>
              rows[i].1.workshop.date <= db.workshops[k].date
  {
    var table := UpcomingTable(db, now);
    var soonest := ListBy(table, NegDate);
    var m := Min(5, |soonest|);
    PrefixIsTop(soonest, table, NegDate, m);
    TakeKeepsListing(soonest, table, NegDate, m);
    rows := soonest[..m];
    assert forall i, j :: 0 <= i < j < |rows| ==> NegDate(rows[i].1) >= NegDate(rows[j].1);
    assert forall k :: k in table ==> table[k].workshop == db.workshops[k];
  }

  /** `getDashboardStats` at time `now`. */
  method GetDashboardStats(db: Db, now: int) returns (s: Stats)
    ensures s.totalUsers == |db.users| && s.totalWorkshops == |db.workshops|
    ensures s.totalRegistrations == |db.registrations|
    ensures s.paidRegistrations == |PaidIds(db.registrations)| <= s.totalRegistrations
    ensures s.totalRevenue == Sum(PaidTable(db.registrations), PricePaidOrZero)
    // the five newest registrations, newest first, none left out newer
    ensures |s.recent| == Min(5, |db.registrations|)
    ensures DistinctKeys(s.recent) && FromMap(s.recent, db.registrations) && Descending(s.recent, RegisteredAt)
    ensures forall k, i :: k in db.registrations && k !in KeysOf(s.recent) && 0 <= i < |s.recent| ==>
              db.registrations[k].registeredAt <= s.recent[i].1.registeredAt
    // the five earliest upcoming workshops, earliest first, none left out earlier
    ensures |s.upcoming| == Min(5, |UpcomingTable(db, now)|)
    ensures DistinctKeys(s.upcoming) && FromMap(s.upcoming, UpcomingTable(db, now))
    ensures forall i, j :: 0 <= i < j < |s.upcoming| ==>
              s.upcoming[i].1.workshop.date <= s.upcoming[j].1.workshop.date
    ensures forall k, i :: k in UpcomingTable(db, now) && k !in KeysOf(s.upcoming) && 0 <= i < |s.upcoming| ==>
              s.upcoming[i].1.workshop.date <= db.workshops[k].date
  {
    PaidAtMostTotal(db.registrations);
    var revenue := TotalRevenue(db.registrations);
    var recent := RecentRegistrations(db.registrations);
    var upcoming := UpcomingWorkshops(db, now);
    s := Stats(|db.users|, |db.workshops|, |db.registrations|, |PaidIds(db.registrations)|,
               revenue, recent, upcoming);
  }
}
