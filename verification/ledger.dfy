/** Sums and counts over rent entries, as the controllers and the client
    page compute them: a filter followed by a left-to-right `reduce`.
    Each is related to an independent reference sum by a lemma. */
module Ledger {
  import opened Common
  import opened RentEntrySchema

  /** The number of an entry a sum adds up. */
  datatype Amount =
    | Rent        // `entry.rentAmount`
    | PaidSoFar   // `entry.paidAmount || 0`
    | Balance     // `entry.rentAmount - (entry.paidAmount || 0)`

  function AmountOf(a: Amount, e: RentEntry): int {
    match a
    case Rent => e.rentAmount
    case PaidSoFar => PaidOrZero(e)
    case Balance => e.rentAmount - PaidOrZero(e)
  }

  /** A selection as the source writes it: an optional owner, tenant and
      property, and the admitted statuses. */
  datatype Query = Query(owner: Option<Id>, tenant: Option<Id>, property: Option<Id>, statuses: set<EntryStatus>)

  const AllStatuses: set<EntryStatus> := {Pending, Paid, Overdue, Partial}
  const UnpaidStatuses: set<EntryStatus> := {Pending, Overdue, Partial}

  /** Every entry, any owner, any tenant. */
  const Everything: Query := Query(None, None, None, AllStatuses)

  /** The entries of one owner, any status. */
  function OwnedBy(owner: Id): Query {
    Query(Some(owner), None, None, AllStatuses)
  }

  /** One tenant's entries, any owner, admitting the given statuses. */
  function OfTenant(tenant: Id, statuses: set<EntryStatus>): Query {
    Query(None, Some(tenant), None, statuses)
  }

  /** Statuses alone, any owner, tenant or property. */
  function WithStatus(statuses: set<EntryStatus>): Query {
    Query(None, None, None, statuses)
  }

  predicate Matches(q: Query, e: RentEntry) {
    && (q.owner.None? || q.owner.value == e.owner)
    && (q.tenant.None? || q.tenant.value == e.tenant)
    && (q.property.None? || q.property.value == e.property)
    && e.status in q.statuses
  }

  lemma StatusIsListed(s: EntryStatus)
    ensures s in AllStatuses
  {
    match s
    case Pending =>
    case Paid =>
    case Overdue =>
    case Partial =>
  }

  /** `entries.filter(matches)`: the matching entries, in their order. */
  function Select(es: seq<RentEntry>, q: Query): (r: seq<RentEntry>)
    ensures |r| <= |es|
    ensures forall i :: 0 <= i < |r| ==> Matches(q, r[i])
    ensures forall i :: 0 <= i < |es| && Matches(q, es[i]) ==> es[i] in r
    ensures forall e :: e in r ==> e in es
  {
    if es == [] then []
    else if Matches(q, es[0]) then [es[0]] + Select(es[1..], q)
    else Select(es[1..], q)
  }

  /** `entries.reduce((sum, e) => sum + amount(e), acc)`: a left fold. */
  function Reduce(es: seq<RentEntry>, a: Amount, acc: int): int
    decreases |es|
  {
    if es == [] then acc else Reduce(es[1..], a, acc + AmountOf(a, es[0]))
  }

  /** Reference: the sum of an amount over the entries a query admits. */
  function SumWhere(es: seq<RentEntry>, q: Query, a: Amount): int {
    if es == [] then 0
    else (if Matches(q, es[0]) then AmountOf(a, es[0]) else 0) + SumWhere(es[1..], q, a)
  }

  /** Reference: how many entries a query admits. */
  function CountWhere(es: seq<RentEntry>, q: Query): (n: nat)
    ensures n <= |es|
  {
    if es == [] then 0
    else (if Matches(q, es[0]) then 1 else 0) + CountWhere(es[1..], q)
  }

  /** A fold with a starting accumulator adds that accumulator to the sum. */
  lemma {:induction false} ReduceIsSum(es: seq<RentEntry>, a: Amount, acc: int)
    ensures Reduce(es, a, acc) == acc + SumWhere(es, Everything, a)
  {
    if es != [] {
      StatusIsListed(es[0].status);
      ReduceIsSum(es[1..], a, acc + AmountOf(a, es[0]));
    }
  }

  lemma {:induction false} SelectSumCount(es: seq<RentEntry>, q: Query, a: Amount)
    ensures SumWhere(Select(es, q), Everything, a) == SumWhere(es, q, a)
    ensures |Select(es, q)| == CountWhere(es, q)
  {
    if es != [] {
      SelectSumCount(es[1..], q, a);
      if Matches(q, es[0]) {
        StatusIsListed(es[0].status);
        assert Select(es, q)[1..] == Select(es[1..], q);
      }
    }
  }

  /** Filtering and then reducing from 0 computes the reference sum. */
  lemma FilterReduce(es: seq<RentEntry>, q: Query, a: Amount)
    ensures Reduce(Select(es, q), a, 0) == SumWhere(es, q, a)
    ensures |Select(es, q)| == CountWhere(es, q)
  {
    ReduceIsSum(Select(es, q), a, 0);
    SelectSumCount(es, q, a);
  }

  /** Splitting the admitted statuses into two disjoint parts splits the
      sum and the count accordingly. */
  lemma {:induction false} SplitStatuses(es: seq<RentEntry>, q: Query, s1: set<EntryStatus>, s2: set<EntryStatus>, a: Amount)
    requires s1 !! s2
    ensures SumWhere(es, q.(statuses := s1 + s2), a)
         == SumWhere(es, q.(statuses := s1), a) + SumWhere(es, q.(statuses := s2), a)
    ensures CountWhere(es, q.(statuses := s1 + s2))
         == CountWhere(es, q.(statuses := s1)) + CountWhere(es, q.(statuses := s2))
  {
    if es != [] {
      SplitStatuses(es[1..], q, s1, s2, a);
    }
  }

  /** The balance sum is the rent sum less the paid sum. */
  lemma {:induction false} BalanceIsRentLessPaid(es: seq<RentEntry>, q: Query)
    ensures SumWhere(es, q, Balance) == SumWhere(es, q, Rent) - SumWhere(es, q, PaidSoFar)
  {
    if es != [] {
      BalanceIsRentLessPaid(es[1..], q);
    }
  }

  /** With no owner or tenant restriction and every status admitted, the
      count is the number of entries. */
  lemma {:induction false} CountEverything(es: seq<RentEntry>)
    ensures CountWhere(es, Everything) == |es|
  {
    if es != [] {
      StatusIsListed(es[0].status);
      CountEverything(es[1..]);
    }
  }

  /** Rent sums over schema-valid entries are never negative. */
  lemma {:induction false} RentSumNonNegative(es: seq<RentEntry>, q: Query)
    ensures (forall i :: 0 <= i < |es| ==> ValidEntry(es[i])) ==> SumWhere(es, q, Rent) >= 0
  {
    if es != [] {
      RentSumNonNegative(es[1..], q);
      assert forall i :: 0 <= i < |es[1..]| ==> es[1..][i] == es[i + 1];
    }
  }

  /** Selecting with one query and then another is selecting with both. */
  lemma {:induction false} SumOfSelection(es: seq<RentEntry>, outer: Query, q: Query, a: Amount)
    requires outer.statuses == AllStatuses
    requires q.owner.None? && q.tenant.None? && q.property.None?
    ensures SumWhere(Select(es, outer), q, a) == SumWhere(es, outer.(statuses := q.statuses), a)
    ensures CountWhere(Select(es, outer), q) == CountWhere(es, outer.(statuses := q.statuses))
  {
    if es != [] {
      StatusIsListed(es[0].status);
      SumOfSelection(es[1..], outer, q, a);
      if Matches(outer, es[0]) {
        assert Select(es, outer)[1..] == Select(es[1..], outer);
      }
    }
  }

  /** Something matches exactly when the count is positive. */
  lemma {:induction false} CountPositive(es: seq<RentEntry>, q: Query)
    ensures CountWhere(es, q) > 0 <==> exists i :: 0 <= i < |es| && Matches(q, es[i])
  {
    if es != [] {
      CountPositive(es[1..], q);
      if exists i :: 0 <= i < |es| && Matches(q, es[i]) {
        var i :| 0 <= i < |es| && Matches(q, es[i]);
        if i > 0 {
          assert es[1..][i - 1] == es[i];
        }
      }
      if exists i :: 0 <= i < |es[1..]| && Matches(q, es[1..][i]) {
        var i :| 0 <= i < |es[1..]| && Matches(q, es[1..][i]);
        assert es[i + 1] == es[1..][i];
      }
    }
  }

  /** Every selected entry is an entry of the store that the query admits, and back. */
  lemma SelectExactly(es: seq<RentEntry>, q: Query, e: RentEntry)
    ensures e in Select(es, q) <==> e in es && Matches(q, e)
  {
    if e in es && Matches(q, e) {
      var i :| 0 <= i < |es| && es[i] == e;
    }
    if e in Select(es, q) {
      var r := Select(es, q);
      var i :| 0 <= i < |r| && r[i] == e;
    }
  }

  /** Filtering keeps store order: the selection of a concatenation is
      the selection of the front followed by that of the back. */
  lemma {:induction false} SelectAppend(a: seq<RentEntry>, b: seq<RentEntry>, q: Query)
    ensures Select(a + b, q) == Select(a, q) + Select(b, q)
  {
    if a != [] {
      assert (a + b)[0] == a[0];
      assert (a + b)[1..] == a[1..] + b;
      SelectAppend(a[1..], b, q);
    } else {
      assert a + b == b;
    }
  }

  /** A run whose every entry the query admits is selected whole, in order. */
  lemma {:induction false} SelectKeepsAll(es: seq<RentEntry>, q: Query)
    requires forall i :: 0 <= i < |es| ==> Matches(q, es[i])
    ensures Select(es, q) == es
  {
    if es != [] {
      assert Matches(q, es[0]);
      SelectKeepsAll(es[1..], q);
    }
  }

  /** Sums and counts over three entries, written out. */
  lemma SumOfThree(x: RentEntry, y: RentEntry, z: RentEntry, q: Query, a: Amount)
    ensures SumWhere([x, y, z], q, a)
         == (if Matches(q, x) then AmountOf(a, x) else 0) + (if Matches(q, y) then AmountOf(a, y) else 0)
            + (if Matches(q, z) then AmountOf(a, z) else 0)
    ensures CountWhere([x, y, z], q)
         == (if Matches(q, x) then 1 else 0) + (if Matches(q, y) then 1 else 0) + (if Matches(q, z) then 1 else 0)
  {
    assert [x, y, z][1..] == [y, z];
    assert [y, z][1..] == [z];
    assert [z][1..] == [];
    assert SumWhere([z], q, a) == (if Matches(q, z) then AmountOf(a, z) else 0) + SumWhere([], q, a);
    assert SumWhere([y, z], q, a) == (if Matches(q, y) then AmountOf(a, y) else 0) + SumWhere([z], q, a);
    assert SumWhere([x, y, z], q, a) == (if Matches(q, x) then AmountOf(a, x) else 0) + SumWhere([y, z], q, a);
    assert CountWhere([z], q) == (if Matches(q, z) then 1 else 0) + CountWhere([], q);
    assert CountWhere([y, z], q) == (if Matches(q, y) then 1 else 0) + CountWhere([z], q);
    assert CountWhere([x, y, z], q) == (if Matches(q, x) then 1 else 0) + CountWhere([y, z], q);
  }
}
