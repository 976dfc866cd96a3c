/** The pure parts of the rent-entries page: the headline totals, the
    per-tenant totals, and the payment dialog's default amount and
    validation. The page shows the caller's entries, each with its tenant
    populated; a tenant whose document no longer exists populates as
    `null`, so the page knows the set `live` of tenants it can show. */
module RentEntriesPage {
  import opened Common
  import opened Calendar
  import opened RentEntrySchema
  import opened Store
  import opened Ledger
  import RentController
  import TenantController
  import TenantSchema

  /** `paymentStats` */
  datatype PaymentStats = PaymentStats(totalDue: int, totalPaid: int, totalAmount: int)

  /** The headline totals, computed as the page does: one filter, then
      three reductions. */
  function PaymentStatsOf(es: seq<RentEntry>): (r: PaymentStats)
    ensures r.totalDue == SumWhere(es, WithStatus(UnpaidStatuses), Balance)
    ensures r.totalPaid == SumWhere(es, Everything, PaidSoFar)
    ensures r.totalAmount == SumWhere(es, Everything, Rent)
    ensures r.totalAmount - r.totalPaid == r.totalDue + SumWhere(es, WithStatus({Paid}), Balance)
  {
    RentController.StatisticsSums(es);
    RentController.StatisticsBalance(es);
    PaymentStats(Reduce(Select(es, WithStatus(UnpaidStatuses)), Balance, 0),
                 Reduce(es, PaidSoFar, 0),
                 Reduce(es, Rent, 0))
  }

  /** Over the caller's entries the page's totals are the server's. */
  lemma PaymentStatsMatchServer(db: Db, ownerId: Id)
    ensures var page := PaymentStatsOf(Select(db.entries, OwnedBy(ownerId)));
            var server := RentController.GetStatistics(db, ownerId);
      && page.totalDue == server.totalDue
      && page.totalPaid == server.totalPaid
      && page.totalAmount == server.totalAmount
  {
    SumOfSelection(db.entries, OwnedBy(ownerId), Everything, Rent);
    SumOfSelection(db.entries, OwnedBy(ownerId), Everything, PaidSoFar);
    SumOfSelection(db.entries, OwnedBy(ownerId), WithStatus(UnpaidStatuses), Balance);
  }

  /** One value of `tenantPaymentStats`. */
  datatype Totals = Totals(totalAmount: int, totalPaid: int, remaining: int)

  const NoTotals: Totals := Totals(0, 0, 0)

  function Current(stats: map<Id, Totals>, t: Id): Totals {
    if t in stats then stats[t] else NoTotals
  }

  /** Every value's `remaining` is its totalAmount less its totalPaid. */
  predicate Balanced(stats: map<Id, Totals>) {
    forall t :: t in stats ==> stats[t].remaining == stats[t].totalAmount - stats[t].totalPaid
  }

  /** The body of the `forEach`: skip an entry without a populated tenant,
      otherwise add it to that tenant's totals, creating them at zero. */
  function Accumulate(stats: map<Id, Totals>, e: RentEntry, live: set<Id>): (r: map<Id, Totals>)
    ensures r.Keys == if e.tenant in live then stats.Keys + {e.tenant} else stats.Keys
    ensures forall t :: t in stats && t != e.tenant ==> r[t] == stats[t]
    ensures e.tenant in live ==>
      && r[e.tenant].totalAmount == Current(stats, e.tenant).totalAmount + e.rentAmount
      && r[e.tenant].totalPaid == Current(stats, e.tenant).totalPaid + PaidOrZero(e)
    ensures Balanced(stats) ==> Balanced(r)
  {
    if e.tenant !in live then stats
    else
      var cur := Current(stats, e.tenant);
      var amount := cur.totalAmount + e.rentAmount;
      var paid := cur.totalPaid + PaidOrZero(e);
      stats[e.tenant := Totals(amount, paid, amount - paid)]
  }

  /** `rentEntries.forEach(...)`: the accumulation from left to right. */
  function Tally(es: seq<RentEntry>, live: set<Id>, stats: map<Id, Totals>): map<Id, Totals>
    decreases |es|
  {
    if es == [] then stats else Tally(es[1..], live, Accumulate(stats, es[0], live))
  }

  lemma {:induction false} TallyBalanced(es: seq<RentEntry>, live: set<Id>, stats: map<Id, Totals>)
    requires Balanced(stats)
    ensures Balanced(Tally(es, live, stats))
  {
    if es != [] {
      TallyBalanced(es[1..], live, Accumulate(stats, es[0], live));
    }
  }

  /** A tenant's totals after the fold: its starting totals plus the
      reference sums over its entries; a tenant the page cannot show is
      never touched. */
  lemma {:induction false} TallySums(es: seq<RentEntry>, live: set<Id>, stats: map<Id, Totals>, t: Id)
    ensures t in Tally(es, live, stats) <==>
      t in stats || (t in live && exists i :: 0 <= i < |es| && es[i].tenant == t)
    ensures t !in live && t in stats ==> Tally(es, live, stats)[t] == stats[t]
    ensures t in live && t in Tally(es, live, stats) ==>
      && Tally(es, live, stats)[t].totalAmount == Current(stats, t).totalAmount + SumWhere(es, OfTenant(t, AllStatuses), Rent)
      && Tally(es, live, stats)[t].totalPaid == Current(stats, t).totalPaid + SumWhere(es, OfTenant(t, AllStatuses), PaidSoFar)
  {
    if es != [] {
      var next := Accumulate(stats, es[0], live);
      TallySums(es[1..], live, next, t);
      StatusIsListed(es[0].status);
      if t in live && (exists i :: 0 <= i < |es| && es[i].tenant == t) {
        var i :| 0 <= i < |es| && es[i].tenant == t;
        if i > 0 {
          assert es[1..][i - 1].tenant == t;
        }
      }
      if t in live && (exists i :: 0 <= i < |es[1..]| && es[1..][i].tenant == t) {
        var i :| 0 <= i < |es[1..]| && es[1..][i].tenant == t;
        assert es[i + 1].tenant == t;
      }
    }
  }

  /** `tenantPaymentStats`: one key per shown tenant that has an entry,
      holding the sums over exactly that tenant's entries. */
  function TenantPaymentStats(es: seq<RentEntry>, live: set<Id>): (r: map<Id, Totals>)
    ensures forall t :: t in r <==> t in live && exists i :: 0 <= i < |es| && es[i].tenant == t
    ensures forall t :: t in r ==>
      && r[t].totalAmount == SumWhere(es, OfTenant(t, AllStatuses), Rent)
      && r[t].totalPaid == SumWhere(es, OfTenant(t, AllStatuses), PaidSoFar)
      && r[t].remaining == r[t].totalAmount - r[t].totalPaid
  {
    var r := Tally(es, live, map[]);
    TallyBalanced(es, live, map[]);
    forall t
      ensures t in r <==> t in live && exists i :: 0 <= i < |es| && es[i].tenant == t
      ensures t in r ==> r[t].totalAmount == SumWhere(es, OfTenant(t, AllStatuses), Rent)
      ensures t in r ==> r[t].totalPaid == SumWhere(es, OfTenant(t, AllStatuses), PaidSoFar)
    {
      TallySums(es, live, map[], t);
    }
    r
  }

  /** Sums over the caller's entries of one tenant are sums over the
      store restricted to that owner and tenant. */
  lemma {:induction false} OwnedTenantSum(es: seq<RentEntry>, ownerId: Id, t: Id, a: Amount)
    ensures SumWhere(Select(es, OwnedBy(ownerId)), OfTenant(t, AllStatuses), a)
         == SumWhere(es, Query(Some(ownerId), Some(t), None, AllStatuses), a)
  {
    if es != [] {
      OwnedTenantSum(es[1..], ownerId, t, a);
      StatusIsListed(es[0].status);
      if Matches(OwnedBy(ownerId), es[0]) {
        var rest := Select(es[1..], OwnedBy(ownerId));
        assert ([es[0]] + rest)[0] == es[0];
        assert ([es[0]] + rest)[1..] == rest;
      }
    }
  }

  /** When every entry of the tenant is the caller's, restricting to the
      owner changes nothing. */
  lemma {:induction false} OwnerRestrictionIsVacuous(es: seq<RentEntry>, ownerId: Id, t: Id, a: Amount)
    requires forall i :: 0 <= i < |es| && es[i].tenant == t ==> es[i].owner == ownerId
    ensures SumWhere(es, Query(Some(ownerId), Some(t), None, AllStatuses), a)
         == SumWhere(es, OfTenant(t, AllStatuses), a)
  {
    if es != [] {
      assert forall i :: 0 <= i < |es[1..]| ==> es[1..][i] == es[i + 1];
      OwnerRestrictionIsVacuous(es[1..], ownerId, t, a);
    }
  }

  /** The page's per-tenant `remaining` is the server's `rentStats.remaining`
      for that tenant, as long as no other owner holds entries of it (the
      server counts those, the page never sees them). */
  lemma TenantTotalsMatchServer(db: Db, ownerId: Id, live: set<Id>, t: Id)
    requires forall i :: 0 <= i < |db.entries| && db.entries[i].tenant == t ==> db.entries[i].owner == ownerId
    requires t in TenantPaymentStats(Select(db.entries, OwnedBy(ownerId)), live)
    ensures var page := TenantPaymentStats(Select(db.entries, OwnedBy(ownerId)), live)[t];
            var server := TenantController.TenantRentStats(db.entries, t);
      && page.totalAmount == server.totalAmount
      && page.totalPaid == server.totalPaid
      && page.remaining == server.remaining
  {
    OwnedTenantSum(db.entries, ownerId, t, Rent);
    OwnedTenantSum(db.entries, ownerId, t, PaidSoFar);
    OwnerRestrictionIsVacuous(db.entries, ownerId, t, Rent);
    OwnerRestrictionIsVacuous(db.entries, ownerId, t, PaidSoFar);
    BalanceIsRentLessPaid(db.entries, OfTenant(t, AllStatuses));
  }

  /** The "Pay" button is shown for pending, overdue and partial entries. */
  predicate PayOffered(e: RentEntry) {
    e.status == Pending || e.status == Overdue || e.status == Partial
  }

  /** The listed entries show a Pay button on a row of the tenant. */
  predicate PayButtonFor(page: seq<RentEntry>, tenantId: Id) {
    exists j :: 0 <= j < |page| && page[j].tenant == tenantId && PayOffered(page[j])
  }

  /** The tenant has an entry the server's deletion guard counts as unpaid. */
  predicate HasUnpaidEntry(es: seq<RentEntry>, tenantId: Id) {
    exists i :: 0 <= i < |es| && es[i].tenant == tenantId && Unpaid(es[i].status)
  }

  /** An unpaid entry of the tenant that the caller owns is on the page, with a Pay button. */
  lemma UnpaidIsOffered(es: seq<RentEntry>, tenantId: Id, ownerId: Id, i: nat)
    requires i < |es| && es[i].tenant == tenantId && es[i].owner == ownerId && Unpaid(es[i].status)
    ensures PayButtonFor(Select(es, OwnedBy(ownerId)), tenantId)
  {
    var page := Select(es, OwnedBy(ownerId));
    StatusIsListed(es[i].status);
    assert Matches(OwnedBy(ownerId), es[i]);
    assert es[i] in page;
    var j :| 0 <= j < |page| && page[j] == es[i];
    assert PayOffered(page[j]);
  }

  /** An entry with a Pay button is an unpaid entry of the store. */
  lemma OfferedIsUnpaid(es: seq<RentEntry>, tenantId: Id, ownerId: Id)
    requires PayButtonFor(Select(es, OwnedBy(ownerId)), tenantId)
    ensures HasUnpaidEntry(es, tenantId)
  {
    var page := Select(es, OwnedBy(ownerId));
    var j :| 0 <= j < |page| && page[j].tenant == tenantId && PayOffered(page[j]);
    var e := page[j];
    assert e in es;
    var i :| 0 <= i < |es| && es[i] == e;
    assert es[i].tenant == tenantId && Unpaid(es[i].status);
  }

  /** The page lists the caller's entries; it offers a payment for one of
      a tenant's entries exactly when the server refuses to delete that
      tenant for unpaid rent, as long as no other owner holds entries of
      the tenant (the server's guard counts those, the page never sees
      them). */
  lemma PayOfferedIffDeletionRefused(db: Db, tenantId: Id, ownerId: Id)
    requires FindTenant(db.tenants, tenantId, Some(ownerId)).Some?
    requires forall i :: 0 <= i < |db.entries| && db.entries[i].tenant == tenantId ==> db.entries[i].owner == ownerId
    ensures TenantController.DeleteTenant(db, tenantId, ownerId).Failure? <==>
      PayButtonFor(Select(db.entries, OwnedBy(ownerId)), tenantId)
  {
    var es := db.entries;
    var r := TenantController.DeleteTenant(db, tenantId, ownerId);
    assert r != Failure(TenantController.TenantMissing);
    assert r.Failure? <==> HasUnpaidEntry(es, tenantId);
    if HasUnpaidEntry(es, tenantId) {
      var i :| 0 <= i < |es| && es[i].tenant == tenantId && Unpaid(es[i].status);
      UnpaidIsOffered(es, tenantId, ownerId, i);
    }
    if PayButtonFor(Select(es, OwnedBy(ownerId)), tenantId) {
      OfferedIsUnpaid(es, tenantId, ownerId);
    }
  }

  /** Without that hypothesis the two disagree: an unpaid entry another
      owner created for the tenant blocks its deletion, while the owner's
      page lists nothing to pay. */
  lemma DeletionRefusedWithNothingToPay(t: TenantSchema.Tenant)
    ensures var e := RentEntry(t.owner + 1, 1, t.id, 3, 2024, 100, Stamp(2024, 3, 5, 0), None, Some(0),
                               EntryStatus.Pending, Other, None);
            var db := Db([], [t], [e]);
      && TenantController.DeleteTenant(db, t.id, t.owner).Failure?
      && Select(db.entries, OwnedBy(t.owner)) == []
  {
    var e := RentEntry(t.owner + 1, 1, t.id, 3, 2024, 100, Stamp(2024, 3, 5, 0), None, Some(0),
                       EntryStatus.Pending, Other, None);
    assert [e][1..] == [];
    assert [t][1..] == [];
    assert FindTenant([t], t.id, Some(t.owner)) == Some(0);
    assert Unpaid(e.status);
  }

  /** The payment dialog's fields; an emptied amount field is `None`. */
  datatype PaymentForm = PaymentForm(paidAmount: Option<int>, paymentMethod: PaymentMethod, paidDate: Date)

  /** `openPaymentDialog`: the amount defaults to what the entry still
      owes, the method to cash and the date to today. */
  function OpenPaymentDialog(e: RentEntry, today: Date): (r: PaymentForm)
    ensures r.paidAmount == Some(AmountOf(Balance, e))
    ensures r.paidAmount.value + PaidOrZero(e) == e.rentAmount
    ensures r.paymentMethod == Cash && r.paidDate == today
  {
    PaymentForm(Some(e.rentAmount - PaidOrZero(e)), Cash, today)
  }

  /** `handlePaymentSubmit` followed by the server's `markAsPaid`: a missing
      or non-positive amount is refused before any request; otherwise the
      entered amount is recorded and the entry becomes paid or partial. */
  function SubmitPayment(e: RentEntry, form: PaymentForm, now: Date): (r: Option<RentEntry>)
    ensures r.Some? <==> form.paidAmount.Some? && form.paidAmount.value > 0
    ensures r.Some? ==>
      && r.value.paidAmount == form.paidAmount
      && (r.value.status == Paid <==> form.paidAmount.value >= e.rentAmount)
      && (r.value.status == Paid || r.value.status == Partial)
      && r.value.paymentMethod == form.paymentMethod
      && r.value.paidDate == Some(form.paidDate)
  {
    if form.paidAmount.None? || form.paidAmount.value <= 0 then None
    else Some(RentController.MarkAsPaid(e, form.paidAmount, Some(form.paymentMethod), Some(form.paidDate), now))
  }

  /** As written: paying the pre-filled amount on a partly paid entry
      records only that remainder, so the entry stays partial and the
      earlier payment disappears from the books. */
  lemma PrefilledPaymentLosesEarlierPayment(e: RentEntry, today: Date, now: Date)
    requires e.paidAmount.Some? && 0 < e.paidAmount.value < e.rentAmount
    ensures var r := SubmitPayment(e, OpenPaymentDialog(e, today), now);
      && r.Some?
      && r.value.status == Partial
      && r.value.paidAmount == Some(e.rentAmount - e.paidAmount.value)
      && PaidOrZero(r.value) < e.rentAmount
  {
  }

  /** The concrete case: rent 1000, 400 already paid; the dialog offers
      600, and afterwards the entry shows 600 paid and is still partial. */
  lemma PrefilledPaymentExample()
    ensures var e := RentEntry(1, 1, 1, 3, 2024, 1000, Stamp(2024, 3, 5, 0), None, Some(400),
                               Partial, Other, None);
            var r := SubmitPayment(e, OpenPaymentDialog(e, Stamp(2024, 3, 20, 0)), Stamp(2024, 3, 20, 0));
      r == Some(e.(paidAmount := Some(600), paidDate := Some(Stamp(2024, 3, 20, 0)), paymentMethod := Cash))
  {
  }

  /** The evident intent: a payment ADDS to what was paid before. */
  function SettlePayment(e: RentEntry, amount: int, paymentMethod: PaymentMethod, paidDate: Date): (r: RentEntry)
    requires amount > 0
    ensures PaidOrZero(r) == PaidOrZero(e) + amount
    ensures r.status == Paid <==> PaidOrZero(r) >= e.rentAmount
    ensures r.status == Paid || r.status == Partial
    ensures r.(paidAmount := e.paidAmount, paidDate := e.paidDate, paymentMethod := e.paymentMethod, status := e.status) == e
  {
    var total := PaidOrZero(e) + amount;
    e.(paidAmount := Some(total), paidDate := Some(paidDate), paymentMethod := paymentMethod,
       status := if total >= e.rentAmount then Paid else Partial)
  }

  /** The dialog's submit with cumulative payments. */
  function SubmitSettlement(e: RentEntry, form: PaymentForm): (r: Option<RentEntry>)
    ensures r.Some? <==> form.paidAmount.Some? && form.paidAmount.value > 0
    ensures r.Some? ==> PaidOrZero(r.value) == PaidOrZero(e) + form.paidAmount.value
  {
    if form.paidAmount.None? || form.paidAmount.value <= 0 then None
    else Some(SettlePayment(e, form.paidAmount.value, form.paymentMethod, form.paidDate))
  }

  /** With cumulative payments, paying the pre-filled amount settles the
      entry in full, whatever was paid before. */
  lemma PrefilledSettlementPaysInFull(e: RentEntry, today: Date)
    requires PaidOrZero(e) < e.rentAmount
    ensures var r := SubmitSettlement(e, OpenPaymentDialog(e, today));
      && r.Some?
      && r.value.status == Paid
      && r.value.paidAmount == Some(e.rentAmount)
  {
  }

  /** Two settlements in a row record the sum of both amounts. */
  lemma SettlementsAccumulate(e: RentEntry, first: int, second: int, m: PaymentMethod, d: Date)
    requires first > 0 && second > 0
    ensures PaidOrZero(SettlePayment(SettlePayment(e, first, m, d), second, m, d)) == PaidOrZero(e) + first + second
  {
  }
}
