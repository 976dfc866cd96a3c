/** What the two assignment endpoints share: the update that marks a
    property occupied by a tenant, and the shape of their responses. */
module Assignment {
  import opened Common
  import opened PropertySchema
  import opened RentEntrySchema

  /** Why an assignment was refused: 404 for a missing or foreign
      document, 400 for a tenant without move-in date, 500 when the
      generator threw after the property had been saved. */
  datatype AssignError = TenantNotFound | PropertyNotFound | MissingMoveInDate | GenerationFailed

  /** The response: the saved property and `entriesGenerated`, with the
      created entries themselves kept for reasoning about them. */
  datatype Assigned = Assigned(property: Property, entriesGenerated: nat, created: seq<RentEntry>)

  /** `property.currentTenant = tenantId; property.status = 'occupied'` */
  function Occupy(p: Property, tenantId: Id): (r: Property)
    ensures r.currentTenant == Some(tenantId) && r.status == Occupied
    ensures r.id == p.id && r.owner == p.owner && r.monthlyRent == p.monthlyRent
    ensures r.(currentTenant := p.currentTenant, status := p.status) == p
    ensures ValidProperty(p) ==> ValidProperty(r)
  {
    p.(currentTenant := Some(tenantId), status := Occupied)
  }
}
