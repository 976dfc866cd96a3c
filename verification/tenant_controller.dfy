/** The tenant controller: per-tenant rent statistics, `assignProperty`
    with its inline copy of the generator, and the guarded `deleteTenant`. */
module TenantController {
  import opened Common
  import opened Calendar
  import opened RentEntrySchema
  import opened PropertySchema
  import opened TenantSchema
  import opened Store
  import opened Ledger
  import opened Generation
  import Assignment

  /** `rentStats` as `getTenants` reports it for one tenant. */
  datatype RentStats = RentStats(
    totalAmount: int,
    totalPaid: int,
    remaining: int,
    pendingAmount: int,
    overdueAmount: int,
    overdueCount: nat,
    pendingCount: nat,
    partialCount: nat,
    totalEntries: nat)

  /** What the tenant still owes: the balance over its unpaid entries, the
      amount `deleteTenant` reports. */
  function UnpaidAmount(entries: seq<RentEntry>, tenantId: Id): int {
    SumWhere(entries, OfTenant(tenantId, UnpaidStatuses), Balance)
  }

  /** The statistics over `RentEntry.find({tenant})` (entries of every owner). */
  function TenantRentStats(entries: seq<RentEntry>, tenantId: Id): (r: RentStats)
    ensures r.totalAmount == SumWhere(entries, OfTenant(tenantId, AllStatuses), Rent)
    ensures r.totalPaid == SumWhere(entries, OfTenant(tenantId, AllStatuses), PaidSoFar)
    ensures r.remaining == SumWhere(entries, OfTenant(tenantId, AllStatuses), Balance)
    ensures r.pendingAmount == SumWhere(entries, OfTenant(tenantId, {EntryStatus.Pending}), Balance)
    ensures r.overdueAmount == SumWhere(entries, OfTenant(tenantId, {Overdue}), Balance)
    ensures r.pendingCount == CountWhere(entries, OfTenant(tenantId, {EntryStatus.Pending}))
    ensures r.overdueCount == CountWhere(entries, OfTenant(tenantId, {Overdue}))
    ensures r.partialCount == CountWhere(entries, OfTenant(tenantId, {Partial}))
    ensures r.totalEntries == CountWhere(entries, OfTenant(tenantId, AllStatuses))
    ensures r.pendingCount + r.overdueCount + r.partialCount + CountWhere(entries, OfTenant(tenantId, {Paid}))
         == r.totalEntries
    ensures r.pendingAmount + r.overdueAmount + SumWhere(entries, OfTenant(tenantId, {Partial}), Balance)
         == UnpaidAmount(entries, tenantId)
  {
    var all := OfTenant(tenantId, AllStatuses);
    var mine := Select(entries, all);
    var totalAmount := Reduce(mine, Rent, 0);
    var totalPaid := Reduce(mine, PaidSoFar, 0);
    var pending := Select(mine, WithStatus({EntryStatus.Pending}));
    var overdue := Select(mine, WithStatus({Overdue}));
    var partial := Select(mine, WithStatus({Partial}));
    var pendingAmount := Reduce(pending, Balance, 0);
    var overdueAmount := Reduce(overdue, Balance, 0);
    TenantStatsSums(entries, tenantId);
    TenantStatsPartition(entries, tenantId);
    RentStats(totalAmount, totalPaid, totalAmount - totalPaid, pendingAmount, overdueAmount,
              |overdue|, |pending|, |partial|, |mine|)
  }

  /** The tenant's totals and per-status figures are their reference sums. */
  lemma TenantStatsSums(entries: seq<RentEntry>, tenantId: Id)
    ensures var mine := Select(entries, OfTenant(tenantId, AllStatuses));
      && Reduce(mine, Rent, 0) == SumWhere(entries, OfTenant(tenantId, AllStatuses), Rent)
      && Reduce(mine, PaidSoFar, 0) == SumWhere(entries, OfTenant(tenantId, AllStatuses), PaidSoFar)
      && Reduce(mine, Rent, 0) - Reduce(mine, PaidSoFar, 0) == SumWhere(entries, OfTenant(tenantId, AllStatuses), Balance)
      && |mine| == CountWhere(entries, OfTenant(tenantId, AllStatuses))
      && (forall s :: s in AllStatuses ==>
            && Reduce(Select(mine, WithStatus({s})), Balance, 0) == SumWhere(entries, OfTenant(tenantId, {s}), Balance)
            && |Select(mine, WithStatus({s}))| == CountWhere(entries, OfTenant(tenantId, {s})))
  {
    var all := OfTenant(tenantId, AllStatuses);
    var mine := Select(entries, all);
    FilterReduce(entries, all, Rent);
    FilterReduce(entries, all, PaidSoFar);
    BalanceIsRentLessPaid(entries, all);
    forall s | s in AllStatuses
      ensures Reduce(Select(mine, WithStatus({s})), Balance, 0) == SumWhere(entries, OfTenant(tenantId, {s}), Balance)
      ensures |Select(mine, WithStatus({s}))| == CountWhere(entries, OfTenant(tenantId, {s}))
    {
      FilterReduce(mine, WithStatus({s}), Balance);
      SumOfSelection(entries, all, WithStatus({s}), Balance);
    }
  }

  /** The tenant's status counts partition its entries, and its pending,
      overdue and partial balances make up what it still owes. */
  lemma TenantStatsPartition(entries: seq<RentEntry>, tenantId: Id)
    ensures CountWhere(entries, OfTenant(tenantId, {EntryStatus.Pending})) + CountWhere(entries, OfTenant(tenantId, {Overdue}))
         + CountWhere(entries, OfTenant(tenantId, {Partial})) + CountWhere(entries, OfTenant(tenantId, {Paid}))
         == CountWhere(entries, OfTenant(tenantId, AllStatuses))
    ensures SumWhere(entries, OfTenant(tenantId, {EntryStatus.Pending}), Balance) + SumWhere(entries, OfTenant(tenantId, {Overdue}), Balance)
         + SumWhere(entries, OfTenant(tenantId, {Partial}), Balance) == UnpaidAmount(entries, tenantId)
  {
    var q := OfTenant(tenantId, {});
    SplitStatuses(entries, q, {EntryStatus.Pending}, {Overdue}, Balance);
    SplitStatuses(entries, q, {EntryStatus.Pending, Overdue}, {Partial}, Balance);
    SplitStatuses(entries, q, {EntryStatus.Pending, Overdue, Partial}, {Paid}, Balance);
    assert {EntryStatus.Pending} + {Overdue} == {EntryStatus.Pending, Overdue};
    assert {EntryStatus.Pending, Overdue} + {Partial} == {EntryStatus.Pending, Overdue, Partial} == UnpaidStatuses;
    assert UnpaidStatuses + {Paid} == AllStatuses;
  }

  /** One row of `getTenants`: the tenant, its statistics and the property
      whose `currentTenant` it is (any owner), if any. */
  datatype TenantView = TenantView(tenant: Tenant, rentStats: RentStats, currentProperty: Option<Property>)

  function CurrentProperty(db: Db, tenantId: Id): (r: Option<Property>)
    ensures r.Some? ==> r.value in db.properties && r.value.currentTenant == Some(tenantId)
    ensures r.None? <==> forall k :: 0 <= k < |db.properties| ==> db.properties[k].currentTenant != Some(tenantId)
  {
    match FindByCurrentTenant(db.properties, tenantId)
    case None => None
    case Some(k) => Some(db.properties[k])
  }

  /** `Tenant.find({owner})`, in store order. */
  function OwnedTenants(ts: seq<Tenant>, ownerId: Id): (r: seq<Tenant>)
    ensures forall t :: t in r <==> t in ts && t.owner == ownerId
  {
    if ts == [] then []
    else if ts[0].owner == ownerId then [ts[0]] + OwnedTenants(ts[1..], ownerId)
    else OwnedTenants(ts[1..], ownerId)
  }

  /** `getTenants`: the caller's tenants, each with its statistics. */
  function GetTenants(db: Db, ownerId: Id): (r: seq<TenantView>)
    ensures forall t :: (exists i :: 0 <= i < |r| && r[i].tenant == t) <==> t in db.tenants && t.owner == ownerId
    ensures |r| == |OwnedTenants(db.tenants, ownerId)|
    ensures forall i :: 0 <= i < |r| ==>
      && r[i].tenant == OwnedTenants(db.tenants, ownerId)[i]
      && r[i].rentStats == TenantRentStats(db.entries, r[i].tenant.id)
      && r[i].currentProperty == CurrentProperty(db, r[i].tenant.id)
      && (r[i].currentProperty.Some? <==>
            exists k :: 0 <= k < |db.properties| && db.properties[k].currentTenant == Some(r[i].tenant.id))
  {
    var ts := OwnedTenants(db.tenants, ownerId);
    var r := seq(|ts|, i requires 0 <= i < |ts| =>
                 TenantView(ts[i], TenantRentStats(db.entries, ts[i].id), CurrentProperty(db, ts[i].id)));
    assert forall i :: 0 <= i < |r| ==> r[i].tenant == ts[i];
    r
  }

  /** `rentStats` as `getTenant` reports it: a subset of the list's fields. */
  datatype BriefStats = BriefStats(totalAmount: int, totalPaid: int, remaining: int,
                                   overdueAmount: int, overdueCount: nat)

  datatype TenantDetail = TenantDetail(tenant: Tenant, rentStats: BriefStats, currentProperty: Option<Property>)

  datatype NotFound = NotFound

  /** `getTenant`: the caller's tenant with its brief statistics; these
      agree field by field with what `getTenants` reports. */
  function GetTenant(db: Db, tenantId: Id, ownerId: Id): (r: Result<TenantDetail, NotFound>)
    ensures r.Failure? <==> FindTenant(db.tenants, tenantId, Some(ownerId)).None?
    ensures r.Success? ==>
      var full := TenantRentStats(db.entries, tenantId);
      && r.value.tenant == db.tenants[FindTenant(db.tenants, tenantId, Some(ownerId)).value]
      && r.value.rentStats == BriefStats(full.totalAmount, full.totalPaid, full.remaining,
                                         full.overdueAmount, full.overdueCount)
      && r.value.currentProperty == CurrentProperty(db, tenantId)
  {
    match FindTenant(db.tenants, tenantId, Some(ownerId))
    case None => Failure(NotFound)
    case Some(k) =>
      var mine := Select(db.entries, OfTenant(tenantId, AllStatuses));
      var totalAmount := Reduce(mine, Rent, 0);
      var totalPaid := Reduce(mine, PaidSoFar, 0);
      var overdue := Select(mine, WithStatus({Overdue}));
      var overdueAmount := Reduce(overdue, Balance, 0);
      TenantStatsSums(db.entries, tenantId);
      Success(TenantDetail(db.tenants[k],
                           BriefStats(totalAmount, totalPaid, totalAmount - totalPaid, overdueAmount, |overdue|),
                           CurrentProperty(db, tenantId)))
  }

  /** The generator written inline in `assignProperty`: the walk runs from
      the move-in month THROUGH the current month, and due dates are the
      5th of each billing month. Afterwards every month of that span has
      an entry for the pair. */
  function BillThroughCurrentMonth(existing: seq<RentEntry>, b: Billing, moveIn: Date, now: Date)
    : (r: seq<RentEntry>)
    ensures forall y, m :: 1 <= m <= 12 && MonthOf(moveIn) <= MonthIndex(y, m) <= MonthOf(now)
              ==> HasEntry(existing + r, b.tenant, b.property, m, y)
    ensures forall i :: 0 <= i < |r| ==>
      var e := r[i];
      && MonthOf(moveIn) <= Period(e) <= MonthOf(now)
      && 1 <= e.month <= 12
      && e.owner == b.owner && e.tenant == b.tenant && e.property == b.property
      && e.rentAmount == b.rent
      && e.dueDate == Stamp(e.year, e.month, 5, 0)
      && (e.status == Overdue <==> Before(e.dueDate, now))
      && (e.status == Overdue || e.status == EntryStatus.Pending)
      && e.paidAmount == Some(DefaultPaidAmount) && e.paymentMethod == DefaultMethod
      && e.paidDate.None? && e.notes.None?
      && !HasEntry(existing, b.tenant, b.property, e.month, e.year)
    ensures forall i, j :: 0 <= i < j < |r| ==> Period(r[i]) < Period(r[j])
    ensures Unbilled(existing, b) ==>
      |r| == if MonthOf(moveIn) <= MonthOf(now)
             then (now.year - moveIn.year) * 12 + (now.month - moveIn.month) + 1 else 0
  {
    var year := FullYear(moveIn);
    var month := ZeroBasedMonth(moveIn) + 1;
    WalkCoversAll(existing, b, year, month, now, ThroughCurrentMonth, FifthOfBillingMonth);
    if Unbilled(existing, b) then
      WalkCountUnbilled(existing, b, year, month, now, ThroughCurrentMonth, FifthOfBillingMonth);
      Walk(existing, b, year, month, now, ThroughCurrentMonth, FifthOfBillingMonth)
    else
      Walk(existing, b, year, month, now, ThroughCurrentMonth, FifthOfBillingMonth)
  }

  /** Running the inline generator again over the extended store adds nothing. */
  lemma BillThroughCurrentMonthIdempotent(existing: seq<RentEntry>, b: Billing, moveIn: Date, now: Date)
    ensures BillThroughCurrentMonth(existing + BillThroughCurrentMonth(existing, b, moveIn, now), b, moveIn, now) == []
  {
    WalkIdempotent(existing, b, moveIn.year, moveIn.month, now, ThroughCurrentMonth, FifthOfBillingMonth);
  }

  /** `assignProperty`: the tenant, then the property, must belong to the
      caller, and the tenant must have a move-in date; all three checks
      come before any write. Then the property is marked occupied by the
      tenant and the missing entries are generated and inserted. */
  function AssignProperty(db: Db, tenantId: Id, propertyId: Id, ownerId: Id, now: Date)
    : (r: (Db, Result<Assignment.Assigned, Assignment.AssignError>))
    ensures var t := FindTenant(db.tenants, tenantId, Some(ownerId));
            var p := FindProperty(db.properties, propertyId, Some(ownerId));
      && (r.1 == Failure(Assignment.TenantNotFound) <==> t.None?)
      && (r.1 == Failure(Assignment.PropertyNotFound) <==> t.Some? && p.None?)
      && (r.1 == Failure(Assignment.MissingMoveInDate) <==>
            t.Some? && p.Some? && db.tenants[t.value].moveInDate.None?)
      && (r.1.Failure? ==> r.0 == db)
      && (t.Some? && p.Some? && db.tenants[t.value].moveInDate.Some? ==> r.1.Success?)
      && (r.1.Success? ==>
            var k := p.value;
            var moveIn := db.tenants[t.value].moveInDate.value;
            var created := r.1.value.created;
            && r.1.value.property == Assignment.Occupy(db.properties[k], tenantId)
            && created == BillThroughCurrentMonth(db.entries, Billing(ownerId, propertyId, tenantId, db.properties[k].monthlyRent),
                                                  moveIn, now)
            && r.0.properties == db.properties[k := r.1.value.property]
            && r.0.tenants == db.tenants
            && r.0.entries == db.entries + created
            && r.1.value.entriesGenerated == |created| == |r.0.entries| - |db.entries|
            && (forall i :: 0 <= i < |created| ==> created[i].rentAmount == db.properties[k].monthlyRent)
            && (forall y, m :: 1 <= m <= 12 && MonthOf(moveIn) <= MonthIndex(y, m) <= MonthOf(now)
                  ==> HasEntry(r.0.entries, tenantId, propertyId, m, y)))
  {
    var t := FindTenant(db.tenants, tenantId, Some(ownerId));
    if t.None? then (db, Failure(Assignment.TenantNotFound))
    else
      var p := FindProperty(db.properties, propertyId, Some(ownerId));
      if p.None? then (db, Failure(Assignment.PropertyNotFound))
      else if db.tenants[t.value].moveInDate.None? then (db, Failure(Assignment.MissingMoveInDate))
      else
        var property := Assignment.Occupy(db.properties[p.value], tenantId);
        var saved := SaveProperty(db, p.value, property);
        var b := Billing(ownerId, propertyId, tenantId, property.monthlyRent);
        var created := BillThroughCurrentMonth(saved.entries, b, db.tenants[t.value].moveInDate.value, now);
        (InsertEntries(saved, created), Success(Assignment.Assigned(property, |created|, created)))
  }

  /** Why `deleteTenant` refused. */
  datatype DeleteRefusal = TenantMissing | UnpaidRent(unpaidCount: nat, unpaidAmount: int)

  /** `deleteTenant`: refused while ANY entry of the tenant (of any owner)
      is pending, overdue or partial, reporting how many and the balance
      they leave; otherwise only the tenant document is removed. */
  function DeleteTenant(db: Db, tenantId: Id, ownerId: Id): (r: Result<Db, DeleteRefusal>)
    ensures r == Failure(TenantMissing) <==> FindTenant(db.tenants, tenantId, Some(ownerId)).None?
    ensures r.Failure? && r.error.UnpaidRent? <==>
      && FindTenant(db.tenants, tenantId, Some(ownerId)).Some?
      && exists i :: 0 <= i < |db.entries| && db.entries[i].tenant == tenantId && Unpaid(db.entries[i].status)
    ensures r.Failure? && r.error.UnpaidRent? ==>
      && r.error.unpaidCount == CountWhere(db.entries, OfTenant(tenantId, UnpaidStatuses))
      && r.error.unpaidAmount == UnpaidAmount(db.entries, tenantId)
    ensures r.Success? ==>
      && r.value.entries == db.entries
      && r.value.properties == db.properties
      && r.value.tenants == RemoveAt(db.tenants, FindTenant(db.tenants, tenantId, Some(ownerId)).value)
  {
    match FindTenant(db.tenants, tenantId, Some(ownerId))
    case None => Failure(TenantMissing)
    case Some(k) =>
      var unpaid := Select(db.entries, OfTenant(tenantId, UnpaidStatuses));
      FilterReduce(db.entries, OfTenant(tenantId, UnpaidStatuses), Balance);
      CountPositive(db.entries, OfTenant(tenantId, UnpaidStatuses));
      if |unpaid| > 0 then
        Failure(UnpaidRent(|unpaid|, Reduce(unpaid, Balance, 0)))
      else
        Success(db.(tenants := RemoveAt(db.tenants, k)))
  }

  /** One overdue entry of 100 with 30 paid blocks the deletion and
      reports one unpaid entry owing 70. */
  lemma DeletionGuardExample(t: Tenant)
    ensures var e := RentEntry(t.owner, 1, t.id, 3, 2024, 100, Stamp(2024, 3, 5, 0), None, Some(30),
                               Overdue, Other, None);
            var db := Db([], [t], [e]);
      DeleteTenant(db, t.id, t.owner) == Failure(UnpaidRent(1, 70))
  {
    var e := RentEntry(t.owner, 1, t.id, 3, 2024, 100, Stamp(2024, 3, 5, 0), None, Some(30),
                       Overdue, Other, None);
    var q := OfTenant(t.id, UnpaidStatuses);
    assert [e][1..] == [];
    assert [t][1..] == [];
    assert FindTenant([t], t.id, Some(t.owner)) == Some(0);
    assert Matches(q, e);
    assert Select([e], q) == [e];
    assert Reduce([e], Balance, 0) == 70;
  }
}
