/** The backend rent controller: its copy of the generator, the assign
    branch of `createRentEntry`, `regenerateRentEntries`, `markAsPaid`
    and `getStatistics`. */
module RentController {
  import opened Common
  import opened Calendar
  import opened RentEntrySchema
  import opened PropertySchema
  import opened Store
  import opened Ledger
  import opened Generation
  import Assignment

  /** This copy's generator. Its guard compares the one-based billing month
      with the ZERO-based `getMonth()`, so the walk stops one month before
      the current one; due dates are the 5th of the billing month. */
  function GenerateForTenant(db: Db, tenantId: Id, propertyId: Id, ownerId: Id, now: Date)
    : (r: Result<seq<RentEntry>, GenerationError>)
    ensures r.Failure? <==>
      || FindTenant(db.tenants, tenantId, None).None?
      || FindProperty(db.properties, propertyId, None).None?
      || db.tenants[FindTenant(db.tenants, tenantId, None).value].moveInDate.None?
    ensures r.Success? ==>
      var moveIn := db.tenants[FindTenant(db.tenants, tenantId, None).value].moveInDate.value;
      var rent := db.properties[FindProperty(db.properties, propertyId, None).value].monthlyRent;
      forall i :: 0 <= i < |r.value| ==>
        var e := r.value[i];
        && MonthOf(moveIn) <= Period(e) < MonthOf(now)
        && 1 <= e.month <= 12
        && e.owner == ownerId && e.tenant == tenantId && e.property == propertyId
        && e.rentAmount == rent
        && e.dueDate == Stamp(e.year, e.month, 5, 0)
        && (e.status == Overdue <==> Before(e.dueDate, now))
        && (e.status == Overdue || e.status == Pending)
        && e.paidAmount == Some(DefaultPaidAmount) && e.paymentMethod == DefaultMethod
        && e.paidDate.None? && e.notes.None?
        && !HasEntry(db.entries, tenantId, propertyId, e.month, e.year)
    ensures r.Success? ==> forall i, j :: 0 <= i < j < |r.value| ==> Period(r.value[i]) < Period(r.value[j])
    ensures r.Success? ==>
      var moveIn := db.tenants[FindTenant(db.tenants, tenantId, None).value].moveInDate.value;
      forall y, m :: 1 <= m <= 12 && MonthOf(moveIn) <= MonthIndex(y, m) < MonthOf(now)
        ==> HasEntry(db.entries + r.value, tenantId, propertyId, m, y)
  {
    var r := Generation.GenerateForTenant(db, tenantId, propertyId, ownerId, now, BeforeCurrentMonth, FifthOfBillingMonth);
    if r.Success? then
      var moveIn := db.tenants[FindTenant(db.tenants, tenantId, None).value].moveInDate.value;
      var rent := db.properties[FindProperty(db.properties, propertyId, None).value].monthlyRent;
      WalkCoversAll(db.entries, Billing(ownerId, propertyId, tenantId, rent), moveIn.year, moveIn.month,
                    now, BeforeCurrentMonth, FifthOfBillingMonth);
      r
    else
      r
  }

  /** `RentEntry.find({property, tenant})`: every entry of the pair, any owner. */
  function EntriesOfPair(db: Db, propertyId: Id, tenantId: Id): (r: seq<RentEntry>)
    ensures forall e :: e in r <==> e in db.entries && e.property == propertyId && e.tenant == tenantId
  {
    var q := Query(None, Some(tenantId), Some(propertyId), AllStatuses);
    forall e ensures e in Select(db.entries, q) <==> e in db.entries && Matches(q, e) {
      SelectExactly(db.entries, q, e);
    }
    forall e ensures Matches(q, e) <==> e.property == propertyId && e.tenant == tenantId {
      StatusIsListed(e.status);
    }
    Select(db.entries, q)
  }

  /** After inserting entries of the pair into a store whose entries are
      those of `db`, the pair's entries read back as the earlier ones in
      store order followed by the inserted ones. */
  lemma PairEntriesAfterInsert(db: Db, saved: Db, added: seq<RentEntry>, propertyId: Id, tenantId: Id)
    requires saved.entries == db.entries
    requires forall i :: 0 <= i < |added| ==> added[i].property == propertyId && added[i].tenant == tenantId
    ensures EntriesOfPair(InsertEntries(saved, added), propertyId, tenantId)
         == EntriesOfPair(db, propertyId, tenantId) + added
  {
    var q := Query(None, Some(tenantId), Some(propertyId), AllStatuses);
    var after := InsertEntries(saved, added);
    assert after.entries == after.entries[..|db.entries|] + after.entries[|db.entries|..];
    SelectAppend(db.entries, added, q);
    forall i | 0 <= i < |added| ensures Matches(q, added[i]) {
      StatusIsListed(added[i].status);
    }
    SelectKeepsAll(added, q);
  }

  /** `createRentEntry` with both `propertyId` and `tenantId` given:
      `findByIdAndUpdate` marks the property (any owner) occupied by the
      tenant, THEN the generator runs. When the generator throws, the
      property update has already been written and nothing is inserted. */
  function CreateRentEntryAssign(db: Db, propertyId: Id, tenantId: Id, ownerId: Id, now: Date)
    : (r: (Db, Result<seq<RentEntry>, GenerationError>))
    ensures r.0.tenants == db.tenants
    ensures var k := FindProperty(db.properties, propertyId, None);
      && (k.None? ==> r.0.properties == db.properties)
      && (k.Some? ==> r.0.properties == db.properties[k.value := Assignment.Occupy(db.properties[k.value], tenantId)])
    ensures r.1.Failure? <==> GenerateForTenant(db, tenantId, propertyId, ownerId, now).Failure?
    ensures r.1.Failure? ==> r.0.entries == db.entries
    ensures r.1.Success? ==>
      && r.0.entries == db.entries + GenerateForTenant(db, tenantId, propertyId, ownerId, now).value
      && forall e :: e in r.1.value <==> e in r.0.entries && e.property == propertyId && e.tenant == tenantId
    ensures r.1.Success? ==>
      var moveIn := db.tenants[FindTenant(db.tenants, tenantId, None).value].moveInDate.value;
      forall y, m :: 1 <= m <= 12 && MonthOf(moveIn) <= MonthIndex(y, m) < MonthOf(now)
        ==> HasEntry(r.0.entries, tenantId, propertyId, m, y)
    ensures r.1.Success? ==>
      r.1.value == EntriesOfPair(db, propertyId, tenantId) + GenerateForTenant(db, tenantId, propertyId, ownerId, now).value
  {
    var k := FindProperty(db.properties, propertyId, None);
    var updated := if k.None? then db
                   else SaveProperty(db, k.value, Assignment.Occupy(db.properties[k.value], tenantId));
    assert updated.entries == db.entries && updated.tenants == db.tenants;
    assert FindProperty(updated.properties, propertyId, None) == k;
    GenerateIgnoresSave(db, updated, tenantId, propertyId, ownerId, now);
    assert EntriesOfPair(updated, propertyId, tenantId) == EntriesOfPair(db, propertyId, tenantId);
    Regenerate(updated, propertyId, tenantId, ownerId, now)
  }

  /** Marking the property occupied touches neither the tenants, the
      entries nor the rent, so the generator's result is unchanged. */
  lemma GenerateIgnoresSave(db: Db, saved: Db, tenantId: Id, propertyId: Id, ownerId: Id, now: Date)
    requires saved.entries == db.entries && saved.tenants == db.tenants
    requires FindProperty(saved.properties, propertyId, None) == FindProperty(db.properties, propertyId, None)
    requires FindProperty(db.properties, propertyId, None).Some? ==>
      saved.properties[FindProperty(db.properties, propertyId, None).value].monthlyRent
        == db.properties[FindProperty(db.properties, propertyId, None).value].monthlyRent
    ensures GenerateForTenant(saved, tenantId, propertyId, ownerId, now) == GenerateForTenant(db, tenantId, propertyId, ownerId, now)
  {
  }

  /** The backend generator run again over a store that already holds its
      output, with the same tenant and the property's rent unchanged,
      creates nothing. */
  lemma GenerateAgainIsEmpty(db: Db, again: Db, tenantId: Id, propertyId: Id, ownerId: Id, now: Date)
    requires GenerateForTenant(db, tenantId, propertyId, ownerId, now).Success?
    requires again.tenants == db.tenants
    requires again.entries == db.entries + GenerateForTenant(db, tenantId, propertyId, ownerId, now).value
    requires FindProperty(again.properties, propertyId, None) == FindProperty(db.properties, propertyId, None)
    requires again.properties[FindProperty(db.properties, propertyId, None).value].monthlyRent
          == db.properties[FindProperty(db.properties, propertyId, None).value].monthlyRent
    ensures GenerateForTenant(again, tenantId, propertyId, ownerId, now) == Success([])
  {
    var moveIn := db.tenants[FindTenant(db.tenants, tenantId, None).value].moveInDate.value;
    var rent := db.properties[FindProperty(db.properties, propertyId, None).value].monthlyRent;
    var b := Billing(ownerId, propertyId, tenantId, rent);
    var w := Walk(db.entries, b, moveIn.year, moveIn.month, now, BeforeCurrentMonth, FifthOfBillingMonth);
    assert GenerateForTenant(db, tenantId, propertyId, ownerId, now).value == w;
    WalkIdempotent(db.entries, b, moveIn.year, moveIn.month, now, BeforeCurrentMonth, FifthOfBillingMonth);
    assert Generation.GenerateForTenant(again, tenantId, propertyId, ownerId, now, BeforeCurrentMonth, FifthOfBillingMonth)
        == Success(Walk(db.entries + w, b, moveIn.year, moveIn.month, now, BeforeCurrentMonth, FifthOfBillingMonth));
  }

  /** Sending the same assigning `createRentEntry` twice with the same
      clock: the second request inserts nothing. */
  lemma CreateRentEntryAssignIdempotent(db: Db, propertyId: Id, tenantId: Id, ownerId: Id, now: Date)
    ensures var once := CreateRentEntryAssign(db, propertyId, tenantId, ownerId, now).0;
            CreateRentEntryAssign(once, propertyId, tenantId, ownerId, now).0.entries == once.entries
  {
    var once := CreateRentEntryAssign(db, propertyId, tenantId, ownerId, now).0;
    var k := FindProperty(db.properties, propertyId, None);
    assert FindProperty(once.properties, propertyId, None) == k;
    if GenerateForTenant(db, tenantId, propertyId, ownerId, now).Success? {
      assert once.tenants == db.tenants;
      assert once.properties[k.value].monthlyRent == db.properties[k.value].monthlyRent;
      GenerateAgainIsEmpty(db, once, tenantId, propertyId, ownerId, now);
    } else {
      assert GenerateForTenant(once, tenantId, propertyId, ownerId, now).Failure?;
    }
    AssignWithNothingToAdd(once, propertyId, tenantId, ownerId, now);
  }

  /** An assigning `createRentEntry` whose generator finds nothing to add,
      or throws, leaves the entries as they were. */
  lemma AssignWithNothingToAdd(db: Db, propertyId: Id, tenantId: Id, ownerId: Id, now: Date)
    requires GenerateForTenant(db, tenantId, propertyId, ownerId, now) == Success([])
          || GenerateForTenant(db, tenantId, propertyId, ownerId, now).Failure?
    ensures CreateRentEntryAssign(db, propertyId, tenantId, ownerId, now).0.entries == db.entries
  {
    var r := CreateRentEntryAssign(db, propertyId, tenantId, ownerId, now);
    if r.1.Success? {
      assert r.0.entries == db.entries + [];
    }
  }

  /** `regenerateRentEntries`: the generator alone, then the pair's entries. */
  function Regenerate(db: Db, propertyId: Id, tenantId: Id, ownerId: Id, now: Date)
    : (r: (Db, Result<seq<RentEntry>, GenerationError>))
    ensures r.0.properties == db.properties && r.0.tenants == db.tenants
    ensures r.1.Failure? <==> GenerateForTenant(db, tenantId, propertyId, ownerId, now).Failure?
    ensures r.1.Failure? ==> r.0 == db
    ensures r.1.Success? ==>
      && r.0.entries == db.entries + GenerateForTenant(db, tenantId, propertyId, ownerId, now).value
      && forall e :: e in r.1.value <==> e in r.0.entries && e.property == propertyId && e.tenant == tenantId
    ensures r.1.Success? ==>
      r.1.value == EntriesOfPair(db, propertyId, tenantId) + GenerateForTenant(db, tenantId, propertyId, ownerId, now).value
  {
    match GenerateForTenant(db, tenantId, propertyId, ownerId, now)
    case Failure(err) => (db, Failure(err))
    case Success(added) =>
      var after := InsertEntries(db, added);
      PairEntriesAfterInsert(db, db, added, propertyId, tenantId);
      (after, Success(EntriesOfPair(after, propertyId, tenantId)))
  }

  /** Regenerating a second time with the same clock inserts nothing. */
  lemma RegenerateIdempotent(db: Db, propertyId: Id, tenantId: Id, ownerId: Id, now: Date)
    ensures var once := Regenerate(db, propertyId, tenantId, ownerId, now).0;
            Regenerate(once, propertyId, tenantId, ownerId, now).0 == once
  {
    var g := GenerateForTenant(db, tenantId, propertyId, ownerId, now);
    if g.Success? {
      var moveIn := db.tenants[FindTenant(db.tenants, tenantId, None).value].moveInDate.value;
      var property := db.properties[FindProperty(db.properties, propertyId, None).value];
      var b := Billing(ownerId, propertyId, tenantId, property.monthlyRent);
      WalkIdempotent(db.entries, b, moveIn.year, moveIn.month, now, BeforeCurrentMonth, FifthOfBillingMonth);
      var once := Regenerate(db, propertyId, tenantId, ownerId, now).0;
      assert once.entries + [] == once.entries;
    }
  }

  /** `paidAmount || rentAmount`: an absent or zero amount means the full rent. */
  function AmountToPay(e: RentEntry, paidAmount: Option<int>): int {
    if paidAmount.Some? && paidAmount.value != 0 then paidAmount.value else e.rentAmount
  }

  /** `markAsPaid` on a found entry. The amount OVERWRITES `paidAmount`
      (it is not added to it); the status becomes `paid` when the amount
      covers the rent, `partial` when it is positive but short, and is
      otherwise left alone. */
  function MarkAsPaid(e: RentEntry, paidAmount: Option<int>, paymentMethod: Option<PaymentMethod>,
                      paidDate: Option<Date>, now: Date): (r: RentEntry)
    ensures paidAmount.Some? && paidAmount.value != 0 ==> r.paidAmount == paidAmount
    ensures paidAmount.None? || paidAmount.value == 0 ==> r.paidAmount == Some(e.rentAmount)
    ensures r.paidAmount.value >= e.rentAmount ==> r.status == Paid
    ensures 0 < r.paidAmount.value < e.rentAmount ==> r.status == Partial
    ensures r.paidAmount.value <= 0 && r.paidAmount.value < e.rentAmount ==> r.status == e.status
    ensures r.paymentMethod == paymentMethod.GetOr(DefaultMethod)
    ensures r.paidDate == Some(paidDate.GetOr(now))
    ensures r.(paidAmount := e.paidAmount, paidDate := e.paidDate, paymentMethod := e.paymentMethod, status := e.status) == e
  {
    var amount := AmountToPay(e, paidAmount);
    var status := if amount >= e.rentAmount then Paid else if amount > 0 then Partial else e.status;
    e.(paidAmount := Some(amount), paidDate := Some(paidDate.GetOr(now)),
       paymentMethod := paymentMethod.GetOr(DefaultMethod), status := status)
  }

  /** The earlier paid amount has no influence on the result: payments are
      not cumulative, and an absent or zero amount records the full rent
      whatever was paid before. */
  lemma MarkAsPaidOverwrites(e: RentEntry, earlier: Option<int>, paidAmount: Option<int>,
                             paymentMethod: Option<PaymentMethod>, paidDate: Option<Date>, now: Date)
    ensures MarkAsPaid(e.(paidAmount := earlier), paidAmount, paymentMethod, paidDate, now)
         == MarkAsPaid(e, paidAmount, paymentMethod, paidDate, now)
  {
  }

  /** Two payments in a row leave only the second amount recorded (or the
      full rent, when the second amount is zero). */
  lemma SecondPaymentReplacesFirst(e: RentEntry, first: int, second: int, now: Date)
    ensures MarkAsPaid(MarkAsPaid(e, Some(first), None, None, now), Some(second), None, None, now).paidAmount
         == Some(if second != 0 then second else e.rentAmount)
  {
  }

  datatype NotFound = NotFound

  /** `markAsPaid` on the store: the entry at position `index` must belong
      to the caller; only that entry changes. */
  function MarkAsPaidAt(entries: seq<RentEntry>, index: nat, ownerId: Id, paidAmount: Option<int>,
                        paymentMethod: Option<PaymentMethod>, paidDate: Option<Date>, now: Date)
    : (r: Result<seq<RentEntry>, NotFound>)
    ensures r.Failure? <==> index >= |entries| || entries[index].owner != ownerId
    ensures r.Success? ==>
      && |r.value| == |entries|
      && r.value[index] == MarkAsPaid(entries[index], paidAmount, paymentMethod, paidDate, now)
      && forall j :: 0 <= j < |entries| && j != index ==> r.value[j] == entries[j]
  {
    if index >= |entries| || entries[index].owner != ownerId then Failure(NotFound)
    else Success(entries[index := MarkAsPaid(entries[index], paidAmount, paymentMethod, paidDate, now)])
  }

  /** `collectionRate`: the fraction totalPaid / totalAmount (shown as a
      percentage with one decimal), or 0 when nothing is billed. */
  datatype Rate = ZeroRate | Fraction(paid: int, total: int)

  datatype Statistics = Statistics(
    totalAmount: int,
    totalPaid: int,
    totalDue: int,
    partialPaid: int,
    overdueCount: nat,
    pendingCount: nat,
    partialCount: nat,
    paidCount: nat,
    totalEntries: nat,
    collectionRate: Rate)

  /** The statistics over a list of entries, computed as the source does:
      filters followed by reductions. */
  function StatisticsOf(es: seq<RentEntry>): (r: Statistics)
    ensures r.totalAmount == SumWhere(es, Everything, Rent)
    ensures r.totalPaid == SumWhere(es, Everything, PaidSoFar)
    ensures r.totalDue == SumWhere(es, WithStatus(UnpaidStatuses), Balance)
    ensures r.partialPaid == SumWhere(es, WithStatus({Partial}), PaidSoFar)
    ensures r.pendingCount == CountWhere(es, WithStatus({Pending}))
    ensures r.overdueCount == CountWhere(es, WithStatus({Overdue}))
    ensures r.partialCount == CountWhere(es, WithStatus({Partial}))
    ensures r.paidCount == CountWhere(es, WithStatus({Paid}))
    ensures r.pendingCount + r.overdueCount + r.partialCount + r.paidCount == r.totalEntries == |es|
    ensures r.totalAmount - r.totalPaid == r.totalDue + SumWhere(es, WithStatus({Paid}), Balance)
    ensures r.collectionRate.ZeroRate? <==> r.totalAmount <= 0
    ensures r.collectionRate.Fraction? ==> r.collectionRate == Fraction(r.totalPaid, r.totalAmount)
  {
    var totalDue := Reduce(Select(es, WithStatus(UnpaidStatuses)), Balance, 0);
    var totalPaid := Reduce(es, PaidSoFar, 0);
    var totalAmount := Reduce(es, Rent, 0);
    var partialPaid := Reduce(Select(es, WithStatus({Partial})), PaidSoFar, 0);
    var overdueCount := |Select(es, WithStatus({Overdue}))|;
    var pendingCount := |Select(es, WithStatus({Pending}))|;
    var partialCount := |Select(es, WithStatus({Partial}))|;
    var paidCount := |Select(es, WithStatus({Paid}))|;
    StatisticsSums(es);
    StatisticsCounts(es);
    StatisticsBalance(es);
    Statistics(totalAmount, totalPaid, totalDue, partialPaid, overdueCount, pendingCount,
               partialCount, paidCount, |es|,
               if totalAmount > 0 then Fraction(totalPaid, totalAmount) else ZeroRate)
  }

  /** Each reduction the statistics compute is its reference sum. */
  lemma StatisticsSums(es: seq<RentEntry>)
    ensures Reduce(Select(es, WithStatus(UnpaidStatuses)), Balance, 0) == SumWhere(es, WithStatus(UnpaidStatuses), Balance)
    ensures Reduce(es, PaidSoFar, 0) == SumWhere(es, Everything, PaidSoFar)
    ensures Reduce(es, Rent, 0) == SumWhere(es, Everything, Rent)
    ensures Reduce(Select(es, WithStatus({Partial})), PaidSoFar, 0) == SumWhere(es, WithStatus({Partial}), PaidSoFar)
  {
    FilterReduce(es, WithStatus(UnpaidStatuses), Balance);
    FilterReduce(es, WithStatus({Partial}), PaidSoFar);
    ReduceIsSum(es, PaidSoFar, 0);
    ReduceIsSum(es, Rent, 0);
  }

  /** The four status counts are the filtered lengths and partition the entries. */
  lemma StatisticsCounts(es: seq<RentEntry>)
    ensures |Select(es, WithStatus({Overdue}))| == CountWhere(es, WithStatus({Overdue}))
    ensures |Select(es, WithStatus({Pending}))| == CountWhere(es, WithStatus({Pending}))
    ensures |Select(es, WithStatus({Partial}))| == CountWhere(es, WithStatus({Partial}))
    ensures |Select(es, WithStatus({Paid}))| == CountWhere(es, WithStatus({Paid}))
    ensures CountWhere(es, WithStatus({Pending})) + CountWhere(es, WithStatus({Overdue}))
          + CountWhere(es, WithStatus({Partial})) + CountWhere(es, WithStatus({Paid})) == |es|
  {
    SelectSumCount(es, WithStatus({Overdue}), Rent);
    SelectSumCount(es, WithStatus({Pending}), Rent);
    SelectSumCount(es, WithStatus({Partial}), Rent);
    SelectSumCount(es, WithStatus({Paid}), Rent);
    var q := WithStatus({});
    SplitStatuses(es, q, {Pending}, {Overdue}, Rent);
    SplitStatuses(es, q, {Pending, Overdue}, {Partial}, Rent);
    SplitStatuses(es, q, {Pending, Overdue, Partial}, {Paid}, Rent);
    assert {Pending} + {Overdue} == {Pending, Overdue};
    assert {Pending, Overdue} + {Partial} == {Pending, Overdue, Partial};
    assert {Pending, Overdue, Partial} + {Paid} == AllStatuses;
    CountEverything(es);
  }

  /** Billed less collected is what is due plus the balance left on paid entries. */
  lemma StatisticsBalance(es: seq<RentEntry>)
    ensures SumWhere(es, Everything, Rent) - SumWhere(es, Everything, PaidSoFar)
         == SumWhere(es, WithStatus(UnpaidStatuses), Balance) + SumWhere(es, WithStatus({Paid}), Balance)
  {
    SplitStatuses(es, WithStatus({}), UnpaidStatuses, {Paid}, Balance);
    assert UnpaidStatuses + {Paid} == AllStatuses;
    BalanceIsRentLessPaid(es, Everything);
  }

  /** `getStatistics`: the statistics over the caller's entries. */
  function GetStatistics(db: Db, ownerId: Id): (r: Statistics)
    ensures r == StatisticsOf(Select(db.entries, OwnedBy(ownerId)))
    ensures r.totalEntries == CountWhere(db.entries, OwnedBy(ownerId))
    ensures r.totalAmount == SumWhere(db.entries, OwnedBy(ownerId), Rent)
    ensures r.totalPaid == SumWhere(db.entries, OwnedBy(ownerId), PaidSoFar)
    ensures r.totalDue == SumWhere(db.entries, Query(Some(ownerId), None, None, UnpaidStatuses), Balance)
    ensures (forall i :: 0 <= i < |db.entries| ==> ValidEntry(db.entries[i])) ==> r.totalAmount >= 0
  {
    var mine := Select(db.entries, OwnedBy(ownerId));
    SelectSumCount(db.entries, OwnedBy(ownerId), Rent);
    SelectSumCount(db.entries, OwnedBy(ownerId), PaidSoFar);
    SumOfSelection(db.entries, OwnedBy(ownerId), Everything, Rent);
    SumOfSelection(db.entries, OwnedBy(ownerId), Everything, PaidSoFar);
    SumOfSelection(db.entries, OwnedBy(ownerId), WithStatus(UnpaidStatuses), Balance);
    RentSumNonNegative(db.entries, OwnedBy(ownerId));
    StatisticsOf(mine)
  }

  /** Three entries of 100 with 100, 50 and nothing paid (paid, partial,
      pending): 300 billed, 150 collected, 150 still due, rate 150/300. */
  lemma StatisticsExample(e: RentEntry)
    ensures var es := [e.(rentAmount := 100, paidAmount := Some(100), status := Paid),
                       e.(rentAmount := 100, paidAmount := Some(50), status := Partial),
                       e.(rentAmount := 100, paidAmount := Some(0), status := Pending)];
            var r := StatisticsOf(es);
      && r.totalAmount == 300 && r.totalPaid == 150 && r.totalDue == 150 && r.partialPaid == 50
      && r.paidCount == 1 && r.partialCount == 1 && r.pendingCount == 1 && r.overdueCount == 0
      && r.collectionRate == Fraction(150, 300)
  {
    var es := [e.(rentAmount := 100, paidAmount := Some(100), status := Paid),
               e.(rentAmount := 100, paidAmount := Some(50), status := Partial),
               e.(rentAmount := 100, paidAmount := Some(0), status := Pending)];
    var x, y, z := es[0], es[1], es[2];
    assert es == [x, y, z];
    SumOfThree(x, y, z, Everything, Rent);
    SumOfThree(x, y, z, Everything, PaidSoFar);
    SumOfThree(x, y, z, WithStatus(UnpaidStatuses), Balance);
    SumOfThree(x, y, z, WithStatus({Partial}), PaidSoFar);
    SumOfThree(x, y, z, WithStatus({Pending}), Rent);
    SumOfThree(x, y, z, WithStatus({Overdue}), Rent);
    SumOfThree(x, y, z, WithStatus({Paid}), Rent);
  }
}
