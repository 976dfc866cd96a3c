/** The Tenant document: a person renting from the owner, with the
    optional move-in date rent generation starts from. */
module TenantSchema {
  import opened Common
  import opened Calendar
  import opened Text

  datatype TenantStatus = Active | Inactive | Pending

  const DefaultTenantStatus: TenantStatus := Active

  datatype EmergencyContact = EmergencyContact(
    name: Option<string>,
    phone: Option<string>,
    relationship: Option<string>)

  datatype Tenant = Tenant(
    id: Id,
    owner: Id,
    name: string,
    phone: string,
    emergencyContact: EmergencyContact,
    moveInDate: Option<Date>,
    status: TenantStatus,
    notes: Option<string>)

  /** What the schema guarantees of a saved tenant. */
  predicate ValidTenant(t: Tenant) {
    StoredText(t.name) && StoredText(t.phone)
  }

  datatype TenantDraft = TenantDraft(
    owner: Option<Id>,
    name: Option<string>,
    phone: Option<string>,
    emergencyContact: EmergencyContact,
    moveInDate: Option<Date>,
    status: Option<TenantStatus>,
    notes: Option<string>)

  datatype TenantField = OwnerField | NameField | PhoneField

  function TenantViolations(d: TenantDraft): set<TenantField> {
    (if d.owner.None? then {OwnerField} else {})
    + (if MissingText(d.name) then {NameField} else {})
    + (if MissingText(d.phone) then {PhoneField} else {})
  }

  /** Validating and saving a new tenant document under identifier `id`.
      A missing move-in date is accepted here; rent generation rejects it. */
  function CreateTenant(id: Id, d: TenantDraft): (r: Result<Tenant, set<TenantField>>)
    ensures r.Success? <==>
      && d.owner.Some?
      && d.name.Some? && !AllSpace(d.name.value)
      && d.phone.Some? && !AllSpace(d.phone.value)
    ensures r.Success? ==> ValidTenant(r.value) && r.value.id == id
    ensures r.Success? ==>
      && r.value.moveInDate == d.moveInDate
      && r.value.status == d.status.GetOr(DefaultTenantStatus)
    ensures r.Success? ==>
      && r.value.owner == d.owner.value
      && r.value.name == Trim(d.name.value)
      && r.value.phone == Trim(d.phone.value)
      && r.value.emergencyContact == d.emergencyContact
      && r.value.notes == d.notes
    ensures r.Failure? ==> r.error != {}
  {
    var bad := TenantViolations(d);
    if bad != {} then Failure(bad)
    else
      TrimIdempotent(d.name.value);
      TrimIdempotent(d.phone.value);
      Success(Tenant(
        id, d.owner.value, Trim(d.name.value), Trim(d.phone.value),
        d.emergencyContact, d.moveInDate, d.status.GetOr(DefaultTenantStatus), d.notes))
  }
}
