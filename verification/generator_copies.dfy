/** Where the three copies of the generator agree and where they do not:
    the backend copy stops one month early, the property controller's copy
    puts every due date one month late, and the two assignment endpoints
    nevertheless leave the same properties and the same charges. */
module GeneratorCopies {
  import opened Common
  import opened Calendar
  import opened RentEntrySchema
  import opened Store
  import opened Generation
  import Assignment
  import RentController
  import TenantController
  import PropertyController

  /** What an entry charges: the billing month and the rent. */
  datatype Charge = Charge(month: int, year: int, rentAmount: int)

  function Charges(es: seq<RentEntry>): (r: seq<Charge>)
    ensures |r| == |es|
    ensures forall i :: 0 <= i < |es| ==> r[i] == Charge(es[i].month, es[i].year, es[i].rentAmount)
  {
    if es == [] then [] else [Charge(es[0].month, es[0].year, es[0].rentAmount)] + Charges(es[1..])
  }

  /** The entry a walk that includes the current month adds for it. */
  function CurrentMonthTail(existing: seq<RentEntry>, b: Billing, now: Date, due: DueRule): seq<RentEntry> {
    if HasEntry(existing, b.tenant, b.property, now.month, now.year) then []
    else [NewEntry(b, now.year, now.month, now, due)]
  }

  /** The inclusive walk is the exclusive one followed by the current
      month, when that month is reached and still unbilled. */
  lemma {:induction false} ThroughExtendsBefore(existing: seq<RentEntry>, b: Billing, year: int, month: int,
                                               now: Date, due: DueRule)
    requires 1 <= month <= 12
    ensures Walk(existing, b, year, month, now, ThroughCurrentMonth, due)
         == Walk(existing, b, year, month, now, BeforeCurrentMonth, due)
            + (if MonthIndex(year, month) <= MonthOf(now) then CurrentMonthTail(existing, b, now, due) else [])
    decreases MonthOf(now) - MonthIndex(year, month)
  {
    ContinuesIff(year, month, now, ThroughCurrentMonth);
    ContinuesIff(year, month, now, BeforeCurrentMonth);
    if MonthIndex(year, month) == MonthOf(now) {
      MonthIndexInjective(year, month, now.year, now.month);
      var next := NextMonth(year, month);
      WalkPastBound(existing, b, next.0, next.1, now, ThroughCurrentMonth, due);
    } else if MonthIndex(year, month) < MonthOf(now) {
      var next := NextMonth(year, month);
      ThroughExtendsBefore(existing, b, next.0, next.1, now, due);
      var before := Walk(existing, b, next.0, next.1, now, BeforeCurrentMonth, due);
      var tail := CurrentMonthTail(existing, b, now, due);
      if !HasEntry(existing, b.tenant, b.property, month, year) {
        var x := NewEntry(b, year, month, now, due);
        assert [x] + (before + tail) == ([x] + before) + tail;
      }
    }
  }

  /** A tenant who moved in this month: the backend copy bills nothing,
      the inclusive copies bill the current month. */
  lemma BackendMissesCurrentMonth(existing: seq<RentEntry>, b: Billing, moveIn: Date, now: Date, due: DueRule)
    requires MonthOf(moveIn) == MonthOf(now)
    requires !HasEntry(existing, b.tenant, b.property, now.month, now.year)
    ensures Walk(existing, b, moveIn.year, moveIn.month, now, BeforeCurrentMonth, due) == []
    ensures Walk(existing, b, moveIn.year, moveIn.month, now, ThroughCurrentMonth, due)
         == [NewEntry(b, now.year, now.month, now, due)]
  {
    WalkPastBound(existing, b, moveIn.year, moveIn.month, now, BeforeCurrentMonth, due);
    ThroughExtendsBefore(existing, b, moveIn.year, moveIn.month, now, due);
  }

  /** The same for the endpoints themselves: on a store where the tenant
      moved in this month and nothing is billed yet, the backend generator
      returns no entry while `assignProperty` bills one. */
  lemma BackendSkipsCurrentMonth(db: Db, tenantId: Id, propertyId: Id, ownerId: Id, now: Date)
    requires UniqueIds(db)
    requires Unbilled(db.entries, Billing(ownerId, propertyId, tenantId, 0))
    requires FindTenant(db.tenants, tenantId, Some(ownerId)).Some?
    requires FindProperty(db.properties, propertyId, Some(ownerId)).Some?
    requires var t := db.tenants[FindTenant(db.tenants, tenantId, Some(ownerId)).value];
             t.moveInDate.Some? && MonthOf(t.moveInDate.value) == MonthOf(now)
    ensures RentController.GenerateForTenant(db, tenantId, propertyId, ownerId, now) == Success([])
    ensures TenantController.AssignProperty(db, tenantId, propertyId, ownerId, now).1.Success?
    ensures TenantController.AssignProperty(db, tenantId, propertyId, ownerId, now).1.value.entriesGenerated == 1
  {
    OwnedTenantIsFoundById(db, tenantId, ownerId);
    OwnedPropertyIsFoundById(db, propertyId, ownerId);
    var t := db.tenants[FindTenant(db.tenants, tenantId, Some(ownerId)).value];
    var moveIn := t.moveInDate.value;
    var rent := db.properties[FindProperty(db.properties, propertyId, Some(ownerId)).value].monthlyRent;
    WalkPastBound(db.entries, Billing(ownerId, propertyId, tenantId, rent), moveIn.year, moveIn.month,
                  now, BeforeCurrentMonth, FifthOfBillingMonth);
  }

  lemma ChargesCons(x: RentEntry, es: seq<RentEntry>)
    ensures Charges([x] + es) == [Charge(x.month, x.year, x.rentAmount)] + Charges(es)
  {
    assert ([x] + es)[1..] == es;
  }

  /** The two due-date rules walk the same months and charge the same rent. */
  lemma {:induction false} DueRulesChargeAlike(existing: seq<RentEntry>, b: Billing, year: int, month: int,
                                               now: Date, bound: BoundRule)
    requires 1 <= month <= 12
    ensures Charges(Walk(existing, b, year, month, now, bound, FifthOfBillingMonth))
         == Charges(Walk(existing, b, year, month, now, bound, FifthOfFollowingMonth))
    decreases LastMonth(now, bound) - MonthIndex(year, month)
  {
    if MonthIndex(year, month) > LastMonth(now, bound) {
      WalkPastBound(existing, b, year, month, now, bound, FifthOfBillingMonth);
      WalkPastBound(existing, b, year, month, now, bound, FifthOfFollowingMonth);
    } else {
      var n := NextMonth(year, month);
      DueRulesChargeAlike(existing, b, n.0, n.1, now, bound);
      WalkStep(existing, b, year, month, now, bound, FifthOfBillingMonth);
      WalkStep(existing, b, year, month, now, bound, FifthOfFollowingMonth);
      if !HasEntry(existing, b.tenant, b.property, month, year) {
        ChargesCons(NewEntry(b, year, month, now, FifthOfBillingMonth),
                    Walk(existing, b, n.0, n.1, now, bound, FifthOfBillingMonth));
        ChargesCons(NewEntry(b, year, month, now, FifthOfFollowingMonth),
                    Walk(existing, b, n.0, n.1, now, bound, FifthOfFollowingMonth));
      }
    }
  }

  /** Entry by entry, the property copy's due date falls one month later,
      so an entry it marks overdue is overdue under the other rule too. */
  lemma DueRulesAgreeOnMonths(existing: seq<RentEntry>, b: Billing, year: int, month: int,
                              now: Date, bound: BoundRule)
    requires 1 <= month <= 12
    ensures var own := Walk(existing, b, year, month, now, bound, FifthOfBillingMonth);
            var next := Walk(existing, b, year, month, now, bound, FifthOfFollowingMonth);
      && Charges(own) == Charges(next)
      && forall i :: 0 <= i < |own| ==>
           && MonthOf(next[i].dueDate) == MonthOf(own[i].dueDate) + 1
           && (next[i].status == Overdue ==> own[i].status == Overdue)
  {
    var own := Walk(existing, b, year, month, now, bound, FifthOfBillingMonth);
    var next := Walk(existing, b, year, month, now, bound, FifthOfFollowingMonth);
    DueRulesChargeAlike(existing, b, year, month, now, bound);
    forall i | 0 <= i < |own|
      ensures MonthOf(next[i].dueDate) == MonthOf(own[i].dueDate) + 1
      ensures next[i].status == Overdue ==> own[i].status == Overdue
    {
      assert Charges(own)[i] == Charges(next)[i];
      EarlierMonthIsBefore(own[i].dueDate, next[i].dueDate);
      BeforeIsStrictTotalOrder(own[i].dueDate, next[i].dueDate, now);
    }
  }

  /** December's entry in the property copy falls due on 5 January of the
      next year; in the other copies on 5 December. */
  lemma PropertyCopyDueNextMonth()
    ensures DueDate(2024, 12, FifthOfFollowingMonth) == Stamp(2025, 1, 5, 0)
    ensures DueDate(2024, 12, FifthOfBillingMonth) == Stamp(2024, 12, 5, 0)
  {
  }

  /** On 10 March 2024 the March entry is overdue under the billing-month
      rule and still pending under the property copy's rule. */
  lemma StatusesDisagreeExample(b: Billing)
    ensures NewEntry(b, 2024, 3, Stamp(2024, 3, 10, 0), FifthOfBillingMonth).status == Overdue
    ensures NewEntry(b, 2024, 3, Stamp(2024, 3, 10, 0), FifthOfFollowingMonth).status == EntryStatus.Pending
  {
    var own := NewEntry(b, 2024, 3, Stamp(2024, 3, 10, 0), FifthOfBillingMonth);
    var next := NewEntry(b, 2024, 3, Stamp(2024, 3, 10, 0), FifthOfFollowingMonth);
    assert own.dueDate == Stamp(2024, 3, 5, 0);
    assert next.dueDate == Stamp(2024, 4, 5, 0);
  }

  /** With ids unique, assigning through either endpoint succeeds for the
      same requests, and a refused request changes nothing. When both
      documents are missing, the endpoints name different culprits. */
  lemma AssignOutcomesAgree(db: Db, tenantId: Id, propertyId: Id, ownerId: Id, now: Date)
    requires UniqueIds(db)
    ensures var viaTenant := TenantController.AssignProperty(db, tenantId, propertyId, ownerId, now);
            var viaProperty := PropertyController.AssignTenant(db, propertyId, tenantId, ownerId, now);
      && (viaTenant.1.Success? <==> viaProperty.1.Success?)
      && (viaTenant.1.Failure? ==> viaTenant.0 == db && viaProperty.0 == db)
      && (FindTenant(db.tenants, tenantId, Some(ownerId)).None?
          && FindProperty(db.properties, propertyId, Some(ownerId)).None? ==>
            && viaTenant.1 == Failure(Assignment.TenantNotFound)
            && viaProperty.1 == Failure(Assignment.PropertyNotFound))
  {
    PropertyController.AssignTenantWithUniqueIds(db, propertyId, tenantId, ownerId, now);
  }

  /** A successful assignment leaves the same properties and tenants, and
      reports the same property and count, through either endpoint. */
  lemma AssignStoresAgree(db: Db, tenantId: Id, propertyId: Id, ownerId: Id, now: Date)
    requires UniqueIds(db)
    requires TenantController.AssignProperty(db, tenantId, propertyId, ownerId, now).1.Success?
    ensures var viaTenant := TenantController.AssignProperty(db, tenantId, propertyId, ownerId, now);
            var viaProperty := PropertyController.AssignTenant(db, propertyId, tenantId, ownerId, now);
      && viaProperty.1.Success?
      && viaTenant.0.properties == viaProperty.0.properties
      && viaTenant.0.tenants == viaProperty.0.tenants
      && viaTenant.1.value.property == viaProperty.1.value.property
      && viaTenant.1.value.entriesGenerated == viaProperty.1.value.entriesGenerated
  {
    AssignOutcomesAgree(db, tenantId, propertyId, ownerId, now);
    ChargesAgreeOnSuccess(db, tenantId, propertyId, ownerId, now);
  }

  /** A successful assignment creates entries with the same charges
      through either endpoint; only due dates and statuses may differ. */
  lemma ChargesAgreeOnSuccess(db: Db, tenantId: Id, propertyId: Id, ownerId: Id, now: Date)
    requires UniqueIds(db)
    requires TenantController.AssignProperty(db, tenantId, propertyId, ownerId, now).1.Success?
    ensures var viaTenant := TenantController.AssignProperty(db, tenantId, propertyId, ownerId, now);
            var viaProperty := PropertyController.AssignTenant(db, propertyId, tenantId, ownerId, now);
      && viaProperty.1.Success?
      && Charges(viaTenant.1.value.created) == Charges(viaProperty.1.value.created)
  {
    AssignOutcomesAgree(db, tenantId, propertyId, ownerId, now);
    var t := FindTenant(db.tenants, tenantId, Some(ownerId));
    var p := FindProperty(db.properties, propertyId, Some(ownerId));
    var moveIn := db.tenants[t.value].moveInDate.value;
    var property := Assignment.Occupy(db.properties[p.value], tenantId);
    var saved := SaveProperty(db, p.value, property);
    OwnedPropertyIsFoundById(saved, propertyId, ownerId);
    OwnedTenantIsFoundById(saved, tenantId, ownerId);
    var b := Billing(ownerId, propertyId, tenantId, property.monthlyRent);
    DueRulesChargeAlike(db.entries, b, moveIn.year, moveIn.month, now, ThroughCurrentMonth);
  }
}
