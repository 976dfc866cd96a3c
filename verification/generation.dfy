/** The rent-entry generator: walk the calendar months from a tenant's
    move-in month up to a bound derived from "now", and build an entry for
    every month that has none yet for this (tenant, property) pair.

    The repository holds three near-copies of this loop. They differ in
    two places, each captured by a parameter:
    - where the walk stops (`BoundRule`), and
    - which date `new Date(year, m, 5)` yields as the due date (`DueRule`). */
module Generation {
  import opened Common
  import opened Calendar
  import opened RentEntrySchema
  import opened Store

  datatype BoundRule =
    | BeforeCurrentMonth   // guard `month <= currentDate.getMonth()`
    | ThroughCurrentMonth  // guard `month <= currentDate.getMonth() + 1`

  datatype DueRule =
    | FifthOfBillingMonth    // `new Date(year, month - 1, 5)`
    | FifthOfFollowingMonth  // `new Date(year, month, 5)`

  /** What stays fixed during one run: who owns the new entries, which
      (tenant, property) pair they bill, and the rent they snapshot. */
  datatype Billing = Billing(owner: Id, property: Id, tenant: Id, rent: int)

  /** The right-hand side of the guard's month comparison. */
  function MonthLimit(now: Date, bound: BoundRule): int {
    match bound
    case BeforeCurrentMonth => ZeroBasedMonth(now)
    case ThroughCurrentMonth => ZeroBasedMonth(now) + 1
  }

  /** The loop guard as written:
      `year < now.getFullYear() || (year === now.getFullYear() && month <= limit)`. */
  predicate Continues(year: int, month: int, now: Date, bound: BoundRule) {
    year < FullYear(now) || (year == FullYear(now) && month <= MonthLimit(now, bound))
  }

  /** The month index of the last billing month a walk visits. */
  function LastMonth(now: Date, bound: BoundRule): int {
    match bound
    case BeforeCurrentMonth => MonthOf(now) - 1
    case ThroughCurrentMonth => MonthOf(now)
  }

  /** The guard holds exactly up to and including `LastMonth`. */
  lemma ContinuesIff(year: int, month: int, now: Date, bound: BoundRule)
    requires 1 <= month <= 12
    ensures Continues(year, month, now, bound) <==> MonthIndex(year, month) <= LastMonth(now, bound)
  {
    MonthIndexMonotone(year, month, now.year, now.month);
    MonthIndexMonotone(now.year, now.month, year, month);
  }

  /** The due date a copy computes for billing month (`year`, `month`). */
  function DueDate(year: int, month: int, due: DueRule): (r: Date)
    requires 1 <= month <= 12
    ensures r.day == 5 && r.millis == 0
    ensures due == FifthOfBillingMonth ==> r.year == year && r.month == month
    ensures due == FifthOfFollowingMonth ==> MonthOf(r) == MonthIndex(year, month) + 1
  {
    match due
    case FifthOfBillingMonth =>
      var r := LocalDate(year, month - 1, 5);
      MonthIndexInjective(r.year, r.month, year, month);
      r
    case FifthOfFollowingMonth => LocalDate(year, month, 5)
  }

  /** The document an entry is created from. */
  function Draft(b: Billing, year: int, month: int, dueDate: Date, status: EntryStatus): EntryDraft {
    EntryDraft(Some(b.owner), Some(b.property), Some(b.tenant), Some(month), Some(year),
               Some(b.rent), Some(dueDate), None, None, Some(status), None, None)
  }

  /** The entry built for one missing month: rent snapshotted from the
      property, overdue exactly when its due date has passed, and the
      schema's defaults for everything else. */
  function NewEntry(b: Billing, year: int, month: int, now: Date, due: DueRule): (e: RentEntry)
    requires 1 <= month <= 12
    ensures e.owner == b.owner && e.property == b.property && e.tenant == b.tenant
    ensures e.month == month && e.year == year && e.rentAmount == b.rent
    ensures e.dueDate == DueDate(year, month, due)
    ensures e.status == Overdue <==> Before(e.dueDate, now)
    ensures e.status == Overdue || e.status == Pending
    ensures e.paidAmount == Some(DefaultPaidAmount) && e.paymentMethod == DefaultMethod
    ensures e.paidDate.None? && e.notes.None?
    ensures b.rent >= 0 ==> CreateEntry(Draft(b, year, month, e.dueDate, e.status)) == Success(e)
  {
    var dueDate := DueDate(year, month, due);
    RentEntry(b.owner, b.property, b.tenant, month, year, b.rent, dueDate, None,
              Some(DefaultPaidAmount), if Before(dueDate, now) then Overdue else Pending,
              DefaultMethod, None)
  }

  /** The walk from billing month (`year`, `month`), checking each month
      against the entries that existed before the run. */
  function Walk(existing: seq<RentEntry>, b: Billing, year: int, month: int, now: Date,
                bound: BoundRule, due: DueRule): (r: seq<RentEntry>)
    requires 1 <= month <= 12
    ensures forall i :: 0 <= i < |r| ==> MonthIndex(year, month) <= Period(r[i]) <= LastMonth(now, bound)
    ensures forall i :: 0 <= i < |r| ==> 1 <= r[i].month <= 12 && r[i] == NewEntry(b, r[i].year, r[i].month, now, due)
    ensures forall i :: 0 <= i < |r| ==> !HasEntry(existing, b.tenant, b.property, r[i].month, r[i].year)
    ensures forall i, j :: 0 <= i < j < |r| ==> Period(r[i]) < Period(r[j])
    decreases LastMonth(now, bound) - MonthIndex(year, month)
  {
    ContinuesIff(year, month, now, bound);
    if !Continues(year, month, now, bound) then []
    else
      var next := NextMonth(year, month);
      var rest := Walk(existing, b, next.0, next.1, now, bound, due);
      if HasEntry(existing, b.tenant, b.property, month, year) then rest
      else [NewEntry(b, year, month, now, due)] + rest
  }

  /** Walks from a month past the bound visit nothing. */
  lemma WalkPastBound(existing: seq<RentEntry>, b: Billing, year: int, month: int, now: Date,
                      bound: BoundRule, due: DueRule)
    requires 1 <= month <= 12
    requires MonthIndex(year, month) > LastMonth(now, bound)
    ensures Walk(existing, b, year, month, now, bound, due) == []
  {
    ContinuesIff(year, month, now, bound);
  }

  /** One step of the walk: the month's own entry, if it is missing,
      before the rest of the walk. */
  lemma WalkStep(existing: seq<RentEntry>, b: Billing, year: int, month: int, now: Date,
                 bound: BoundRule, due: DueRule)
    requires 1 <= month <= 12
    requires MonthIndex(year, month) <= LastMonth(now, bound)
    ensures var n := NextMonth(year, month);
            var rest := Walk(existing, b, n.0, n.1, now, bound, due);
      Walk(existing, b, year, month, now, bound, due)
        == if HasEntry(existing, b.tenant, b.property, month, year) then rest
           else [NewEntry(b, year, month, now, due)] + rest
  {
    ContinuesIff(year, month, now, bound);
  }

  /** After the run's entries are appended, every visited month has an entry. */
  lemma {:induction false} WalkCovers(existing: seq<RentEntry>, b: Billing, year: int, month: int,
                                      now: Date, bound: BoundRule, due: DueRule, y: int, m: int)
    requires 1 <= month <= 12 && 1 <= m <= 12
    requires MonthIndex(year, month) <= MonthIndex(y, m) <= LastMonth(now, bound)
    ensures HasEntry(existing + Walk(existing, b, year, month, now, bound, due), b.tenant, b.property, m, y)
    decreases LastMonth(now, bound) - MonthIndex(year, month)
  {
    var r := Walk(existing, b, year, month, now, bound, due);
    var next := NextMonth(year, month);
    var rest := Walk(existing, b, next.0, next.1, now, bound, due);
    var billed := HasEntry(existing, b.tenant, b.property, month, year);
    var x := NewEntry(b, year, month, now, due);
    WalkStep(existing, b, year, month, now, bound, due);
    HasEntryAppend(existing, r, b.tenant, b.property, m, y);
    HasEntryAppend([x], rest, b.tenant, b.property, m, y);
    if MonthIndex(y, m) == MonthIndex(year, month) {
      MonthIndexInjective(y, m, year, month);
      assert [x][0] == x && Bills(x, b.tenant, b.property, m, y);
    } else {
      WalkCovers(existing, b, next.0, next.1, now, bound, due, y, m);
      HasEntryAppend(existing, rest, b.tenant, b.property, m, y);
    }
  }

  /** A walk over months that all have entries already creates nothing. */
  lemma {:induction false} WalkCoveredIsEmpty(existing: seq<RentEntry>, b: Billing, year: int, month: int,
                                              now: Date, bound: BoundRule, due: DueRule)
    requires 1 <= month <= 12
    requires forall y, m :: 1 <= m <= 12 && MonthIndex(year, month) <= MonthIndex(y, m) <= LastMonth(now, bound)
               ==> HasEntry(existing, b.tenant, b.property, m, y)
    ensures Walk(existing, b, year, month, now, bound, due) == []
    decreases LastMonth(now, bound) - MonthIndex(year, month)
  {
    ContinuesIff(year, month, now, bound);
    if Continues(year, month, now, bound) {
      var next := NextMonth(year, month);
      WalkCoveredIsEmpty(existing, b, next.0, next.1, now, bound, due);
    }
  }

  /** After the run's entries are appended, every month from the start
      through the bound has an entry for the pair. */
  lemma WalkCoversAll(existing: seq<RentEntry>, b: Billing, year: int, month: int,
                      now: Date, bound: BoundRule, due: DueRule)
    requires 1 <= month <= 12
    ensures forall y, m :: 1 <= m <= 12 && MonthIndex(year, month) <= MonthIndex(y, m) <= LastMonth(now, bound)
              ==> HasEntry(existing + Walk(existing, b, year, month, now, bound, due), b.tenant, b.property, m, y)
  {
    forall y, m | 1 <= m <= 12 && MonthIndex(year, month) <= MonthIndex(y, m) <= LastMonth(now, bound)
      ensures HasEntry(existing + Walk(existing, b, year, month, now, bound, due), b.tenant, b.property, m, y)
    {
      WalkCovers(existing, b, year, month, now, bound, due, y, m);
    }
  }

  /** Idempotence: running the walk again over the store it just extended,
      with the same clock and start month, creates nothing. */
  lemma WalkIdempotent(existing: seq<RentEntry>, b: Billing, year: int, month: int,
                       now: Date, bound: BoundRule, due: DueRule)
    requires 1 <= month <= 12
    ensures Walk(existing + Walk(existing, b, year, month, now, bound, due), b, year, month, now, bound, due) == []
  {
    WalkCoversAll(existing, b, year, month, now, bound, due);
    WalkCoveredIsEmpty(existing + Walk(existing, b, year, month, now, bound, due), b, year, month, now, bound, due);
  }

  /** The walk creates an entry for a month exactly when that month lies
      between the start and the bound and had no entry before. */
  lemma WalkBillsExactlyMissing(existing: seq<RentEntry>, b: Billing, year: int, month: int,
                                now: Date, bound: BoundRule, due: DueRule, y: int, m: int)
    requires 1 <= month <= 12 && 1 <= m <= 12
    ensures HasEntry(Walk(existing, b, year, month, now, bound, due), b.tenant, b.property, m, y)
        <==> MonthIndex(year, month) <= MonthIndex(y, m) <= LastMonth(now, bound)
             && !HasEntry(existing, b.tenant, b.property, m, y)
  {
    var r := Walk(existing, b, year, month, now, bound, due);
    if HasEntry(r, b.tenant, b.property, m, y) {
      var i :| 0 <= i < |r| && Bills(r[i], b.tenant, b.property, m, y);
      assert Period(r[i]) == MonthIndex(y, m);
    } else if MonthIndex(year, month) <= MonthIndex(y, m) <= LastMonth(now, bound) {
      WalkCovers(existing, b, year, month, now, bound, due, y, m);
      HasEntryAppend(existing, r, b.tenant, b.property, m, y);
    }
  }

  /** No entry yet for this (tenant, property) pair. */
  predicate Unbilled(existing: seq<RentEntry>, b: Billing) {
    forall i :: 0 <= i < |existing| ==> !(existing[i].tenant == b.tenant && existing[i].property == b.property)
  }

  /** On a store with no entry for the pair, one entry per month from the
      start through the bound: (last - first) + 1 of them. */
  lemma {:induction false} WalkCountUnbilled(existing: seq<RentEntry>, b: Billing, year: int, month: int,
                                             now: Date, bound: BoundRule, due: DueRule)
    requires 1 <= month <= 12
    requires Unbilled(existing, b)
    ensures |Walk(existing, b, year, month, now, bound, due)|
         == if MonthIndex(year, month) <= LastMonth(now, bound) then LastMonth(now, bound) - MonthIndex(year, month) + 1 else 0
    decreases LastMonth(now, bound) - MonthIndex(year, month)
  {
    ContinuesIff(year, month, now, bound);
    if Continues(year, month, now, bound) {
      var next := NextMonth(year, month);
      WalkCountUnbilled(existing, b, next.0, next.1, now, bound, due);
      assert !HasEntry(existing, b.tenant, b.property, month, year);
    }
  }

  datatype GenerationError = MoveInDateOrPropertyNotFound

  /** `generateRentEntriesForTenant(tenantId, propertyId, ownerId)`: looks
      both documents up by id (any owner) and fails, before creating
      anything, when either is missing or the tenant has no move-in date;
      otherwise walks from the move-in month. Returns the new entries. */
  function GenerateForTenant(db: Db, tenantId: Id, propertyId: Id, ownerId: Id, now: Date,
                             bound: BoundRule, due: DueRule): (r: Result<seq<RentEntry>, GenerationError>)
    ensures r.Failure? <==>
      || FindTenant(db.tenants, tenantId, None).None?
      || FindProperty(db.properties, propertyId, None).None?
      || db.tenants[FindTenant(db.tenants, tenantId, None).value].moveInDate.None?
    ensures r.Success? ==>
      var moveIn := db.tenants[FindTenant(db.tenants, tenantId, None).value].moveInDate.value;
      var property := db.properties[FindProperty(db.properties, propertyId, None).value];
      r.value == Walk(db.entries, Billing(ownerId, propertyId, tenantId, property.monthlyRent),
                      moveIn.year, moveIn.month, now, bound, due)
  {
    var t := FindTenant(db.tenants, tenantId, None);
    var p := FindProperty(db.properties, propertyId, None);
    if t.None? || p.None? || db.tenants[t.value].moveInDate.None? then
      Failure(MoveInDateOrPropertyNotFound)
    else
      var moveIn := db.tenants[t.value].moveInDate.value;
      var property := db.properties[p.value];
      var year := FullYear(moveIn);
      var month := ZeroBasedMonth(moveIn) + 1;
      Success(Walk(db.entries, Billing(ownerId, propertyId, tenantId, property.monthlyRent),
                   year, month, now, bound, due))
  }
}
