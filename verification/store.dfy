/** The document store the controllers read and write: three collections
    kept as sequences, with the lookups the controllers issue. A lookup
    returns the FIRST matching document, as `findOne` does. */
module Store {
  import opened Common
  import opened RentEntrySchema
  import opened PropertySchema
  import opened TenantSchema

  datatype Db = Db(properties: seq<Property>, tenants: seq<Tenant>, entries: seq<RentEntry>)

  /** `_id` is unique within each collection. */
  predicate UniqueIds(db: Db) {
    && (forall i, j :: 0 <= i < j < |db.properties| ==> db.properties[i].id != db.properties[j].id)
    && (forall i, j :: 0 <= i < j < |db.tenants| ==> db.tenants[i].id != db.tenants[j].id)
  }

  /** A lookup by `_id`, optionally restricted to one owner:
      `findById(id)` when `owner` is None, `findOne({_id, owner})` otherwise. */
  predicate OwnerMatches(owner: Option<Id>, actual: Id) {
    owner.None? || owner.value == actual
  }

  function FindProperty(ps: seq<Property>, id: Id, owner: Option<Id>): (r: Option<nat>)
    ensures r.Some? ==> r.value < |ps| && ps[r.value].id == id && OwnerMatches(owner, ps[r.value].owner)
    ensures r.Some? ==> forall k :: 0 <= k < r.value ==> !(ps[k].id == id && OwnerMatches(owner, ps[k].owner))
    ensures r.None? <==> forall k :: 0 <= k < |ps| ==> !(ps[k].id == id && OwnerMatches(owner, ps[k].owner))
  {
    if ps == [] then None
    else if ps[0].id == id && OwnerMatches(owner, ps[0].owner) then Some(0)
    else
      match FindProperty(ps[1..], id, owner)
      case None => None
      case Some(k) => Some(k + 1)
  }

  function FindTenant(ts: seq<Tenant>, id: Id, owner: Option<Id>): (r: Option<nat>)
    ensures r.Some? ==> r.value < |ts| && ts[r.value].id == id && OwnerMatches(owner, ts[r.value].owner)
    ensures r.Some? ==> forall k :: 0 <= k < r.value ==> !(ts[k].id == id && OwnerMatches(owner, ts[k].owner))
    ensures r.None? <==> forall k :: 0 <= k < |ts| ==> !(ts[k].id == id && OwnerMatches(owner, ts[k].owner))
  {
    if ts == [] then None
    else if ts[0].id == id && OwnerMatches(owner, ts[0].owner) then Some(0)
    else
      match FindTenant(ts[1..], id, owner)
      case None => None
      case Some(k) => Some(k + 1)
  }

  /** With unique ids, an owner-scoped hit is also what `findById` returns. */
  lemma OwnedPropertyIsFoundById(db: Db, id: Id, owner: Id)
    requires UniqueIds(db)
    requires FindProperty(db.properties, id, Some(owner)).Some?
    ensures FindProperty(db.properties, id, None) == FindProperty(db.properties, id, Some(owner))
  {
    var k := FindProperty(db.properties, id, Some(owner)).value;
    var j := FindProperty(db.properties, id, None).value;
    assert j <= k;
    assert j == k;
  }

  lemma OwnedTenantIsFoundById(db: Db, id: Id, owner: Id)
    requires UniqueIds(db)
    requires FindTenant(db.tenants, id, Some(owner)).Some?
    ensures FindTenant(db.tenants, id, None) == FindTenant(db.tenants, id, Some(owner))
  {
    var k := FindTenant(db.tenants, id, Some(owner)).value;
    var j := FindTenant(db.tenants, id, None).value;
    assert j <= k;
    assert j == k;
  }

  /** `RentEntry.findOne({tenant, property, month, year})` finds something. */
  predicate HasEntry(es: seq<RentEntry>, tenant: Id, property: Id, month: int, year: int) {
    exists i :: 0 <= i < |es| && Bills(es[i], tenant, property, month, year)
  }

  predicate Bills(e: RentEntry, tenant: Id, property: Id, month: int, year: int) {
    e.tenant == tenant && e.property == property && e.month == month && e.year == year
  }

  lemma HasEntryAppend(a: seq<RentEntry>, b: seq<RentEntry>, tenant: Id, property: Id, month: int, year: int)
    ensures HasEntry(a + b, tenant, property, month, year)
        <==> HasEntry(a, tenant, property, month, year) || HasEntry(b, tenant, property, month, year)
  {
    if HasEntry(a, tenant, property, month, year) {
      var i :| 0 <= i < |a| && Bills(a[i], tenant, property, month, year);
      assert (a + b)[i] == a[i];
    }
    if HasEntry(b, tenant, property, month, year) {
      var i :| 0 <= i < |b| && Bills(b[i], tenant, property, month, year);
      assert (a + b)[|a| + i] == b[i];
    }
    if HasEntry(a + b, tenant, property, month, year) {
      var i :| 0 <= i < |a + b| && Bills((a + b)[i], tenant, property, month, year);
      if i >= |a| {
        assert (a + b)[i] == b[i - |a|];
      } else {
        assert (a + b)[i] == a[i];
      }
    }
  }

  /** `property.save()` (or `findByIdAndUpdate`) after changing the document
      at position `k`: that document is replaced, every other one kept. */
  function SaveProperty(db: Db, k: nat, p: Property): (r: Db)
    requires k < |db.properties|
    requires p.id == db.properties[k].id
    ensures r.tenants == db.tenants && r.entries == db.entries
    ensures |r.properties| == |db.properties| && r.properties[k] == p
    ensures forall j :: 0 <= j < |db.properties| && j != k ==> r.properties[j] == db.properties[j]
    ensures UniqueIds(db) ==> UniqueIds(r)
  {
    db.(properties := db.properties[k := p])
  }

  /** `insertMany(entries)`: appends the new entries; existing ones are untouched. */
  function InsertEntries(db: Db, added: seq<RentEntry>): (r: Db)
    ensures r.properties == db.properties && r.tenants == db.tenants
    ensures |r.entries| == |db.entries| + |added|
    ensures r.entries[..|db.entries|] == db.entries
    ensures r.entries[|db.entries|..] == added
    ensures UniqueIds(db) ==> UniqueIds(r)
  {
    db.(entries := db.entries + added)
  }

  /** Removing the document at position `k` of a sequence. */
  function RemoveAt<T>(s: seq<T>, k: nat): (r: seq<T>)
    requires k < |s|
    ensures |r| == |s| - 1
    ensures forall j :: 0 <= j < k ==> r[j] == s[j]
    ensures forall j :: k <= j < |r| ==> r[j] == s[j + 1]
  {
    s[..k] + s[k + 1..]
  }

  /** `Property.findOne({currentTenant: tenantId})`, across all owners. */
  function FindByCurrentTenant(ps: seq<Property>, tenantId: Id): (r: Option<nat>)
    ensures r.Some? ==> r.value < |ps| && ps[r.value].currentTenant == Some(tenantId)
    ensures r.Some? ==> forall k :: 0 <= k < r.value ==> ps[k].currentTenant != Some(tenantId)
    ensures r.None? <==> forall k :: 0 <= k < |ps| ==> ps[k].currentTenant != Some(tenantId)
  {
    if ps == [] then None
    else if ps[0].currentTenant == Some(tenantId) then Some(0)
    else
      match FindByCurrentTenant(ps[1..], tenantId)
      case None => None
      case Some(k) => Some(k + 1)
  }
}
