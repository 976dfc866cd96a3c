/** The Property document: a rentable unit with its monthly rent, its
    occupancy status and at most one current tenant. */
module PropertySchema {
  import opened Common
  import opened Text

  datatype PropertyType = Apartment | House | Condo | Commercial | OtherType

  datatype PropertyStatus = Available | Occupied | Maintenance

  const DefaultType: PropertyType := Apartment
  const DefaultPropertyStatus: PropertyStatus := Available
  const DefaultRooms: int := 1

  /** `currentTenant` is a single optional reference; nothing in the
      schema ties it to `status`. */
  datatype Property = Property(
    id: Id,
    owner: Id,
    address: string,
    city: string,
    state: string,
    zipCode: string,
    propertyType: PropertyType,
    bedrooms: int,
    bathrooms: int,
    squareFeet: Option<int>,
    monthlyRent: int,
    description: Option<string>,
    status: PropertyStatus,
    currentTenant: Option<Id>)

  /** What the schema guarantees of a saved property. */
  predicate ValidProperty(p: Property) {
    && StoredText(p.address) && StoredText(p.city)
    && StoredText(p.state) && StoredText(p.zipCode)
    && p.monthlyRent >= 0
  }

  datatype PropertyDraft = PropertyDraft(
    owner: Option<Id>,
    address: Option<string>,
    city: Option<string>,
    state: Option<string>,
    zipCode: Option<string>,
    propertyType: Option<PropertyType>,
    bedrooms: Option<int>,
    bathrooms: Option<int>,
    squareFeet: Option<int>,
    monthlyRent: Option<int>,
    description: Option<string>,
    status: Option<PropertyStatus>,
    currentTenant: Option<Id>)

  datatype PropertyField = OwnerField | AddressField | CityField | StateField
                         | ZipCodeField | MonthlyRentField

  function PropertyViolations(d: PropertyDraft): set<PropertyField> {
    (if d.owner.None? then {OwnerField} else {})
    + (if MissingText(d.address) then {AddressField} else {})
    + (if MissingText(d.city) then {CityField} else {})
    + (if MissingText(d.state) then {StateField} else {})
    + (if MissingText(d.zipCode) then {ZipCodeField} else {})
    + (if d.monthlyRent.None? || d.monthlyRent.value < 0 then {MonthlyRentField} else {})
  }

  /** Validating and saving a new property document under identifier `id`. */
  function CreateProperty(id: Id, d: PropertyDraft): (r: Result<Property, set<PropertyField>>)
    ensures r.Success? <==>
      && d.owner.Some? && d.monthlyRent.Some? && d.monthlyRent.value >= 0
      && d.address.Some? && !AllSpace(d.address.value)
      && d.city.Some? && !AllSpace(d.city.value)
      && d.state.Some? && !AllSpace(d.state.value)
      && d.zipCode.Some? && !AllSpace(d.zipCode.value)
    ensures r.Success? ==> ValidProperty(r.value) && r.value.id == id
    ensures r.Success? ==>
      && r.value.propertyType == d.propertyType.GetOr(DefaultType)
      && r.value.status == d.status.GetOr(DefaultPropertyStatus)
      && r.value.bedrooms == d.bedrooms.GetOr(DefaultRooms)
      && r.value.bathrooms == d.bathrooms.GetOr(DefaultRooms)
      && r.value.currentTenant == d.currentTenant
    ensures r.Success? ==>
      && r.value.owner == d.owner.value
      && r.value.address == Trim(d.address.value)
      && r.value.city == Trim(d.city.value)
      && r.value.state == Trim(d.state.value)
      && r.value.zipCode == Trim(d.zipCode.value)
      && r.value.monthlyRent == d.monthlyRent.value
      && r.value.squareFeet == d.squareFeet
      && r.value.description == d.description
    ensures r.Failure? ==> r.error != {}
  {
    var bad := PropertyViolations(d);
    if bad != {} then Failure(bad)
    else
      var address := Trim(d.address.value);
      var city := Trim(d.city.value);
      var state := Trim(d.state.value);
      var zip := Trim(d.zipCode.value);
      TrimIdempotent(d.address.value);
      TrimIdempotent(d.city.value);
      TrimIdempotent(d.state.value);
      TrimIdempotent(d.zipCode.value);
      Success(Property(
        id, d.owner.value, address, city, state, zip,
        d.propertyType.GetOr(DefaultType),
        d.bedrooms.GetOr(DefaultRooms), d.bathrooms.GetOr(DefaultRooms),
        d.squareFeet, d.monthlyRent.value, d.description,
        d.status.GetOr(DefaultPropertyStatus), d.currentTenant))
  }
}
