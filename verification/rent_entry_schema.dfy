/** The RentEntry document: one month's rent owed by a tenant for a
    property, its field constraints, defaults and `updateStatus`. */
module RentEntrySchema {
  import opened Common
  import opened Calendar

  datatype EntryStatus = Pending | Paid | Overdue | Partial

  datatype PaymentMethod = Cash | Check | BankTransfer | Online | Other

  const DefaultEntryStatus: EntryStatus := Pending
  const DefaultMethod: PaymentMethod := Other
  const DefaultPaidAmount: int := 0

  /** Money is counted in integer cents. `paidAmount` may be unset (or
      `null`); readers treat that as 0. */
  datatype RentEntry = RentEntry(
    owner: Id,
    property: Id,
    tenant: Id,
    month: int,
    year: int,
    rentAmount: int,
    dueDate: Date,
    paidDate: Option<Date>,
    paidAmount: Option<int>,
    status: EntryStatus,
    paymentMethod: PaymentMethod,
    notes: Option<string>)

  /** The bounds the schema enforces on a saved entry. */
  predicate ValidEntry(e: RentEntry) {
    1 <= e.month <= 12 && e.rentAmount >= 0
  }

  /** `entry.paidAmount || 0` */
  function PaidOrZero(e: RentEntry): int {
    e.paidAmount.GetOr(0)
  }

  /** The statuses that still owe money. */
  predicate Unpaid(s: EntryStatus) {
    s == Pending || s == Overdue || s == Partial
  }

  /** The month index of an entry's billing period. */
  function Period(e: RentEntry): int {
    MonthIndex(e.year, e.month)
  }

  /** A document as submitted for creation: any field may be missing. */
  datatype EntryDraft = EntryDraft(
    owner: Option<Id>,
    property: Option<Id>,
    tenant: Option<Id>,
    month: Option<int>,
    year: Option<int>,
    rentAmount: Option<int>,
    dueDate: Option<Date>,
    paidDate: Option<Date>,
    paidAmount: Option<int>,
    status: Option<EntryStatus>,
    paymentMethod: Option<PaymentMethod>,
    notes: Option<string>)

  /** The paths a validation error can name. */
  datatype EntryField = OwnerField | PropertyField | TenantField | MonthField
                      | YearField | RentAmountField | DueDateField

  function EntryViolations(d: EntryDraft): set<EntryField> {
    (if d.owner.None? then {OwnerField} else {})
    + (if d.property.None? then {PropertyField} else {})
    + (if d.tenant.None? then {TenantField} else {})
    + (if d.month.None? || d.month.value < 1 || d.month.value > 12 then {MonthField} else {})
    + (if d.year.None? then {YearField} else {})
    + (if d.rentAmount.None? || d.rentAmount.value < 0 then {RentAmountField} else {})
    + (if d.dueDate.None? then {DueDateField} else {})
  }

  /** Validating and saving a new entry document: required fields must be
      present, `month` in 1..12, `rentAmount` at least 0; unset optional
      fields take their defaults. */
  function CreateEntry(d: EntryDraft): (r: Result<RentEntry, set<EntryField>>)
    ensures r.Success? <==>
      && d.owner.Some? && d.property.Some? && d.tenant.Some?
      && d.month.Some? && 1 <= d.month.value <= 12
      && d.year.Some? && d.rentAmount.Some? && d.rentAmount.value >= 0
      && d.dueDate.Some?
    ensures r.Success? ==> ValidEntry(r.value)
    ensures r.Success? ==>
      && r.value.paidAmount == Some(d.paidAmount.GetOr(DefaultPaidAmount))
      && r.value.status == d.status.GetOr(DefaultEntryStatus)
      && r.value.paymentMethod == d.paymentMethod.GetOr(DefaultMethod)
      && r.value.paidDate == d.paidDate
    ensures r.Success? ==>
      && r.value.owner == d.owner.value && r.value.property == d.property.value
      && r.value.tenant == d.tenant.value
      && r.value.month == d.month.value && r.value.year == d.year.value
      && r.value.rentAmount == d.rentAmount.value && r.value.dueDate == d.dueDate.value
      && r.value.notes == d.notes
    ensures r.Failure? ==> r.error != {}
    ensures r.Failure? && MonthField in r.error ==> d.month.None? || !(1 <= d.month.value <= 12)
  {
    var bad := EntryViolations(d);
    if bad != {} then Failure(bad)
    else
      Success(RentEntry(
        d.owner.value, d.property.value, d.tenant.value, d.month.value, d.year.value,
        d.rentAmount.value, d.dueDate.value, d.paidDate,
        Some(d.paidAmount.GetOr(DefaultPaidAmount)),
        d.status.GetOr(DefaultEntryStatus), d.paymentMethod.GetOr(DefaultMethod), d.notes))
  }

  /** `entry.updateStatus()` at moment `now`: a pending entry whose due
      date has strictly passed becomes overdue; the new status is returned
      alongside the entry. */
  function UpdateStatus(e: RentEntry, now: Date): (r: (RentEntry, EntryStatus))
    ensures r.1 == r.0.status
    ensures r.0 == e.(status := r.1)
    ensures r.1 == e.status || r.1 == Overdue
    ensures r.1 != e.status <==> e.status == Pending && Before(e.dueDate, now)
  {
    if e.status == Pending && Before(e.dueDate, now) then
      var e' := e.(status := Overdue);
      (e', e'.status)
    else
      (e, e.status)
  }

  /** Running `updateStatus` again at the same moment changes nothing. */
  lemma UpdateStatusIdempotent(e: RentEntry, now: Date)
    ensures UpdateStatus(UpdateStatus(e, now).0, now) == UpdateStatus(e, now)
  {
  }

  /** Once overdue at some moment, an entry stays overdue at every later one. */
  lemma UpdateStatusMonotone(e: RentEntry, now: Date, later: Date)
    requires !Before(later, now)
    requires UpdateStatus(e, now).1 == Overdue
    ensures UpdateStatus(e, later).1 == Overdue
  {
    if e.status == Pending {
      BeforeIsStrictTotalOrder(e.dueDate, now, later);
      if later != now {
        BeforeIsStrictTotalOrder(now, later, e.dueDate);
      }
    }
  }
}
