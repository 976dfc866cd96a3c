/** The property controller: its own copy of the generator (bound through
    the current month, due date read with a 1-based month as a 0-based
    one), `assignTenant` and the unguarded `deleteProperty`. */
module PropertyController {
  import opened Common
  import opened Calendar
  import opened RentEntrySchema
  import opened PropertySchema
  import opened TenantSchema
  import opened Store
  import opened Generation
  import Assignment

  /** `generateRentEntriesForTenant` of the property controller. The walk
      includes the current month; each due date is the 5th of the month
      AFTER the billing month, and the status is judged against it. */
  function GenerateForTenant(db: Db, tenantId: Id, propertyId: Id, ownerId: Id, now: Date)
    : (r: Result<seq<RentEntry>, GenerationError>)
    ensures r.Failure? <==>
      || FindTenant(db.tenants, tenantId, None).None?
      || FindProperty(db.properties, propertyId, None).None?
      || db.tenants[FindTenant(db.tenants, tenantId, None).value].moveInDate.None?
    ensures r.Success? ==>
      var moveIn := db.tenants[FindTenant(db.tenants, tenantId, None).value].moveInDate.value;
      var rent := db.properties[FindProperty(db.properties, propertyId, None).value].monthlyRent;
      && (forall i :: 0 <= i < |r.value| ==>
            var e := r.value[i];
            && MonthOf(moveIn) <= Period(e) <= MonthOf(now)
            && 1 <= e.month <= 12
            && e.owner == ownerId && e.tenant == tenantId && e.property == propertyId
            && e.rentAmount == rent
            && MonthOf(e.dueDate) == Period(e) + 1 && e.dueDate.day == 5 && e.dueDate.millis == 0
            && (e.status == Overdue <==> Before(e.dueDate, now))
            && (e.status == Overdue || e.status == EntryStatus.Pending)
            && e.paidAmount == Some(DefaultPaidAmount) && e.paymentMethod == DefaultMethod
            && e.paidDate.None? && e.notes.None?
            && !HasEntry(db.entries, tenantId, propertyId, e.month, e.year))
      && (forall y, m :: 1 <= m <= 12 && MonthOf(moveIn) <= MonthIndex(y, m) <= MonthOf(now)
            ==> HasEntry(db.entries + r.value, tenantId, propertyId, m, y))
    ensures r.Success? ==> forall i, j :: 0 <= i < j < |r.value| ==> Period(r.value[i]) < Period(r.value[j])
  {
    var r := Generation.GenerateForTenant(db, tenantId, propertyId, ownerId, now, ThroughCurrentMonth, FifthOfFollowingMonth);
    if r.Success? then
      var moveIn := db.tenants[FindTenant(db.tenants, tenantId, None).value].moveInDate.value;
      var rent := db.properties[FindProperty(db.properties, propertyId, None).value].monthlyRent;
      WalkCoversAll(db.entries, Billing(ownerId, propertyId, tenantId, rent), moveIn.year, moveIn.month,
                    now, ThroughCurrentMonth, FifthOfFollowingMonth);
      r
    else
      r
  }

  /** The write half of `assignTenant`: the property at position `k` is
      saved as occupied by the tenant, and only then does the generator
      run, on the saved store. A generator failure leaves the saved
      property in place and inserts nothing. */
  function OccupyThenGenerate(db: Db, k: nat, propertyId: Id, tenantId: Id, ownerId: Id, now: Date)
    : (r: (Db, Result<Assignment.Assigned, Assignment.AssignError>))
    requires k < |db.properties|
    ensures var property := Assignment.Occupy(db.properties[k], tenantId);
            var g := GenerateForTenant(SaveProperty(db, k, property), tenantId, propertyId, ownerId, now);
      && r.0.properties == db.properties[k := property]
      && r.0.tenants == db.tenants
      && (r.1.Failure? <==> g.Failure?)
      && (r.1.Failure? ==> r.1 == Failure(Assignment.GenerationFailed) && r.0.entries == db.entries)
      && (r.1.Success? ==>
            && r.1.value == Assignment.Assigned(property, |g.value|, g.value)
            && r.0.entries == db.entries + g.value)
  {
    var property := Assignment.Occupy(db.properties[k], tenantId);
    var saved := SaveProperty(db, k, property);
    assert saved.properties == db.properties[k := property];
    match GenerateForTenant(saved, tenantId, propertyId, ownerId, now)
    case Failure(_) => (saved, Failure(Assignment.GenerationFailed))
    case Success(created) =>
      (InsertEntries(saved, created), Success(Assignment.Assigned(property, |created|, created)))
  }

  /** `assignTenant`: the property, then the tenant, must belong to the
      caller, and the tenant must have a move-in date; then the write half
      runs. */
  function AssignTenant(db: Db, propertyId: Id, tenantId: Id, ownerId: Id, now: Date)
    : (r: (Db, Result<Assignment.Assigned, Assignment.AssignError>))
    ensures var p := FindProperty(db.properties, propertyId, Some(ownerId));
            var t := FindTenant(db.tenants, tenantId, Some(ownerId));
      && (r.1 == Failure(Assignment.PropertyNotFound) <==> p.None?)
      && (r.1 == Failure(Assignment.TenantNotFound) <==> p.Some? && t.None?)
      && (r.1 == Failure(Assignment.MissingMoveInDate) <==>
            p.Some? && t.Some? && db.tenants[t.value].moveInDate.None?)
      && (r.1.Failure? && r.1.error != Assignment.GenerationFailed ==> r.0 == db)
      && (p.Some? && t.Some? && db.tenants[t.value].moveInDate.Some? ==>
            r == OccupyThenGenerate(db, p.value, propertyId, tenantId, ownerId, now))
      && (r.0 != db ==>
            && r.0.properties == db.properties[p.value := Assignment.Occupy(db.properties[p.value], tenantId)]
            && r.0.tenants == db.tenants)
      && (r.1 == Failure(Assignment.GenerationFailed) ==> r.0.entries == db.entries)
      && (r.1.Success? ==>
            var created := r.1.value.created;
            && r.1.value.property == Assignment.Occupy(db.properties[p.value], tenantId)
            && r.0.properties == db.properties[p.value := r.1.value.property]
            && r.0.tenants == db.tenants
            && r.0.entries == db.entries + created
            && r.1.value.entriesGenerated == |created| == |r.0.entries| - |db.entries|)
    ensures r.1.Success? ==>
      var created := r.1.value.created;
      && (forall i :: 0 <= i < |created| ==>
            && created[i].tenant == tenantId && created[i].property == propertyId
            && !HasEntry(db.entries, tenantId, propertyId, created[i].month, created[i].year))
      && (forall i, j :: 0 <= i < j < |created| ==> Period(created[i]) < Period(created[j]))
  {
    var p := FindProperty(db.properties, propertyId, Some(ownerId));
    if p.None? then (db, Failure(Assignment.PropertyNotFound))
    else
      var t := FindTenant(db.tenants, tenantId, Some(ownerId));
      if t.None? then (db, Failure(Assignment.TenantNotFound))
      else if db.tenants[t.value].moveInDate.None? then (db, Failure(Assignment.MissingMoveInDate))
      else OccupyThenGenerate(db, p.value, propertyId, tenantId, ownerId, now)
  }

  /** With ids unique, the generator finds the very documents the
      ownership checks found, so it cannot throw after the save; the
      entries it creates charge the property's rent and cover every month
      from the tenant's move-in through the current one. */
  lemma AssignTenantWithUniqueIds(db: Db, propertyId: Id, tenantId: Id, ownerId: Id, now: Date)
    requires UniqueIds(db)
    ensures var r := AssignTenant(db, propertyId, tenantId, ownerId, now);
            var p := FindProperty(db.properties, propertyId, Some(ownerId));
            var t := FindTenant(db.tenants, tenantId, Some(ownerId));
      && r.1 != Failure(Assignment.GenerationFailed)
      && (r.1.Success? ==>
            var moveIn := db.tenants[t.value].moveInDate.value;
            && (forall i :: 0 <= i < |r.1.value.created| ==>
                  r.1.value.created[i].rentAmount == db.properties[p.value].monthlyRent)
            && (forall y, m :: 1 <= m <= 12 && MonthOf(moveIn) <= MonthIndex(y, m) <= MonthOf(now)
                  ==> HasEntry(r.0.entries, tenantId, propertyId, m, y)))
  {
    var p := FindProperty(db.properties, propertyId, Some(ownerId));
    var t := FindTenant(db.tenants, tenantId, Some(ownerId));
    if p.Some? && t.Some? && db.tenants[t.value].moveInDate.Some? {
      var property := Assignment.Occupy(db.properties[p.value], tenantId);
      var saved := SaveProperty(db, p.value, property);
      OwnedPropertyIsFoundById(saved, propertyId, ownerId);
      OwnedTenantIsFoundById(saved, tenantId, ownerId);
    }
  }

  /** `deleteProperty`: removes the caller's property whatever its
      `currentTenant` and whatever entries refer to it. */
  function DeleteProperty(db: Db, propertyId: Id, ownerId: Id): (r: Result<Db, Assignment.AssignError>)
    ensures r.Failure? <==> FindProperty(db.properties, propertyId, Some(ownerId)).None?
    ensures r.Failure? ==> r.error == Assignment.PropertyNotFound
    ensures r.Success? ==>
      && r.value.properties == RemoveAt(db.properties, FindProperty(db.properties, propertyId, Some(ownerId)).value)
      && r.value.tenants == db.tenants
      && r.value.entries == db.entries
  {
    match FindProperty(db.properties, propertyId, Some(ownerId))
    case None => Failure(Assignment.PropertyNotFound)
    case Some(k) => Success(db.(properties := RemoveAt(db.properties, k)))
  }

  /** No guard: the outcome does not depend on the rent entries, nor on
      whom the property is let to, nor on its status. */
  lemma DeletePropertyIsUnguarded(db: Db, propertyId: Id, ownerId: Id, k: nat,
                                  entries: seq<RentEntry>, tenant: Option<Id>, status: PropertyStatus)
    requires k < |db.properties|
    ensures var other := db.(entries := entries,
                             properties := db.properties[k := db.properties[k].(currentTenant := tenant, status := status)]);
      DeleteProperty(other, propertyId, ownerId).Success? <==> DeleteProperty(db, propertyId, ownerId).Success?
  {
    var other := db.(entries := entries,
                     properties := db.properties[k := db.properties[k].(currentTenant := tenant, status := status)]);
    assert forall j :: 0 <= j < |db.properties| ==>
      other.properties[j].id == db.properties[j].id && other.properties[j].owner == db.properties[j].owner;
  }
}
