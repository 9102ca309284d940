/** offer-service's migration 0003: before the unique index on live offers can be built, the
    duplicates that nothing stopped until then are cancelled. */
module Migration {
  import opened Base
  import Offers

  /** The columns the repair looks at or changes; `created` is an abstract clock. */
  datatype Row = Row(id: Uuid, seller: Uuid, request: Uuid, status: Offers.Status, created: int)

  predicate LiveFor(r: Row, seller: Uuid, request: Uuid) {
    r.seller == seller && r.request == request && Offers.Live(r.status)
  }

  predicate SamePair(a: Row, b: Row) { a.seller == b.seller && a.request == b.request }

  /** `ORDER BY (status = 'APPROVED') DESC, created_at DESC, offer_id` */
  predicate Before(a: Row, b: Row) {
    if a.status == Offers.Approved && b.status != Offers.Approved then true
    else if a.status != Offers.Approved && b.status == Offers.Approved then false
    else a.created > b.created || (a.created == b.created && a.id < b.id)
  }

  /** The primary key. */
  ghost predicate Keyed(rows: seq<Row>) {
    forall i, j :: 0 <= i < j < |rows| ==> rows[i].id != rows[j].id
  }

  /** The subselect: the first live offer of the pair in that order. */
  function Keep(rows: seq<Row>, seller: Uuid, request: Uuid): Option<Row> {
    if rows == [] then None
    else
      var last, best := rows[|rows| - 1], Keep(rows[..|rows| - 1], seller, request);
      if LiveFor(last, seller, request) && (best.None? || Before(last, best.value)) then Some(last) else best
  }

  ghost predicate IsFirst(rows: seq<Row>, seller: Uuid, request: Uuid, k: nat)
    requires k < |rows|
  {
    && LiveFor(rows[k], seller, request)
    && forall i :: 0 <= i < |rows| && LiveFor(rows[i], seller, request) ==> i == k || Before(rows[k], rows[i])
  }

  lemma {:induction false} KeepIsFirst(rows: seq<Row>, seller: Uuid, request: Uuid) returns (k: nat)
    requires Keyed(rows)
    ensures Keep(rows, seller, request).None? <==> forall i :: 0 <= i < |rows| ==> !LiveFor(rows[i], seller, request)
    ensures Keep(rows, seller, request).Some? ==>
              k < |rows| && Keep(rows, seller, request) == Some(rows[k]) && IsFirst(rows, seller, request, k)
  {
    k := 0;
    if rows != [] {
      var n := |rows| - 1;
      var before := rows[..n];
      k := KeepIsFirst(before, seller, request);
      assert forall i :: 0 <= i < n ==> before[i] == rows[i];
      if Keep(rows, seller, request) == Some(rows[n]) { k := n; }
    }
  }

  /** The one UPDATE, evaluated on the rows as they stood before it. */
  function RepairedRow(rows: seq<Row>, r: Row): Row {
    var keep := Keep(rows, r.seller, r.request);
    if r.status == Offers.Pending && keep.Some? && r.id != keep.value.id then r.(status := Offers.Cancelled) else r
  }

  function Repaired(rows: seq<Row>): (r: seq<Row>)
    ensures |r| == |rows|
    ensures forall i :: 0 <= i < |rows| ==> r[i] == RepairedRow(rows, rows[i])
  {
    seq(|rows|, i requires 0 <= i < |rows| => RepairedRow(rows, rows[i]))
  }

  /** The index can be built: no two live offers of one seller on one request. */
  predicate Indexable(rows: seq<Row>) {
    forall i, j :: 0 <= i < j < |rows| ==>
        !(SamePair(rows[i], rows[j]) && Offers.Live(rows[i].status) && Offers.Live(rows[j].status))
  }

  ghost predicate OneApproved(rows: seq<Row>) {
    forall i, j :: 0 <= i < j < |rows| ==>
      !(SamePair(rows[i], rows[j]) && rows[i].status == Offers.Approved && rows[j].status == Offers.Approved)
  }

  /** Only the status of a PENDING offer changes, to CANCELLED, and exactly when another live
      offer of the pair comes first. APPROVED offers and records are untouched. */
  lemma RepairCancelsIff(rows: seq<Row>, i: nat)
    requires Keyed(rows) && i < |rows|
    ensures rows[i].status != Offers.Pending ==> Repaired(rows)[i] == rows[i]
    ensures rows[i].status == Offers.Pending ==>
              Repaired(rows)[i] ==
              if exists j :: 0 <= j < |rows| && SamePair(rows[j], rows[i]) && Offers.Live(rows[j].status) &&
                  Before(rows[j], rows[i])
              then rows[i].(status := Offers.Cancelled) else rows[i]
  {
    if rows[i].status == Offers.Pending {
      assert LiveFor(rows[i], rows[i].seller, rows[i].request);
      var k := KeepIsFirst(rows, rows[i].seller, rows[i].request);
      if rows[k].id != rows[i].id {
        assert Before(rows[k], rows[i]) && SamePair(rows[k], rows[i]);
      } else {
        assert k == i;
      }
    }
  }

  /** A pair with a live offer and at most one APPROVED keeps exactly one: the APPROVED one,
      or else the newest PENDING one. */
  lemma RepairLeavesOne(rows: seq<Row>, seller: Uuid, request: Uuid) returns (k: nat)
    requires Keyed(rows)
    requires exists i :: 0 <= i < |rows| && LiveFor(rows[i], seller, request)
    requires forall i, j :: (0 <= i < j < |rows| && LiveFor(rows[i], seller, request)
                             && LiveFor(rows[j], seller, request)) ==>
               !(rows[i].status == Offers.Approved && rows[j].status == Offers.Approved)
    ensures k < |rows| && Repaired(rows)[k] == rows[k]
    ensures forall i :: 0 <= i < |rows| ==> (LiveFor(Repaired(rows)[i], seller, request) <==> i == k)
    ensures forall i :: 0 <= i < |rows| && LiveFor(rows[i], seller, request) && rows[i].status == Offers.Approved ==>
                i == k
    ensures rows[k].status != Offers.Approved ==>
              forall i :: 0 <= i < |rows| && LiveFor(rows[i], seller, request) ==>
                rows[i].created < rows[k].created || (rows[i].created == rows[k].created && rows[k].id <= rows[i].id)
  {
    k := KeepIsFirst(rows, seller, request);
    forall i | 0 <= i < |rows| ensures LiveFor(Repaired(rows)[i], seller, request) <==> i == k {
      if i != k && LiveFor(rows[i], seller, request) {
        assert Before(rows[k], rows[i]) && rows[k].id != rows[i].id;
      }
    }
  }

  /** So the index that follows can be built if and only if no seller had two APPROVED offers
      on one request. */
  lemma IndexBuildsIff(rows: seq<Row>)
    requires Keyed(rows)
    ensures Indexable(Repaired(rows)) <==> OneApproved(rows)
  {
    var after := Repaired(rows);
    if OneApproved(rows) {
      forall i, j | 0 <= i < j < |rows| && SamePair(after[i], after[j]) && Offers.Live(after[i].status)
        ensures !Offers.Live(after[j].status)
      {
        assert LiveFor(rows[i], rows[i].seller, rows[i].request);
        var k := RepairLeavesOne(rows, rows[i].seller, rows[i].request);
        assert LiveFor(after[i], rows[i].seller, rows[i].request);
      }
    }
    if !OneApproved(rows) {
      var i, j :| 0 <= i < j < |rows| && SamePair(rows[i], rows[j]) && rows[i].status == Offers.Approved &&
          rows[j].status == Offers.Approved;
      assert after[i] == rows[i] && after[j] == rows[j];
    }
  }

  /** Running the repair again changes nothing. */
  lemma RepairIsIdempotent(rows: seq<Row>)
    requires Keyed(rows)
    ensures Keyed(Repaired(rows)) && Repaired(Repaired(rows)) == Repaired(rows)
  {
    var after := Repaired(rows);
    forall i | 0 <= i < |rows| ensures Repaired(after)[i] == after[i] {
      if after[i].status == Offers.Pending {
        RepairCancelsIff(rows, i);
        RepairCancelsIff(after, i);
      }
    }
  }

  class OfferTable {
    var rows: seq<Row>
    var indexed: bool

    constructor (rows: seq<Row>)
      ensures this.rows == rows && !indexed
    {
      this.rows, indexed := rows, false;
    }

    /** The migration runs in one transaction: it repairs the rows and builds the index, or it
        fails on two APPROVED offers of one pair and leaves the table as it was. */
    method Upgrade() returns (ok: bool)
      requires Keyed(rows) && !indexed
      modifies this
      ensures ok <==> OneApproved(old(rows))
      ensures ok ==> rows == Repaired(old(rows)) && indexed && Indexable(rows)
      ensures !ok ==> rows == old(rows) && !indexed
    {
      var updated: seq<Row> := [];
      for i := 0 to |rows|
        invariant |updated| == i
        invariant forall k :: 0 <= k < i ==> updated[k] == RepairedRow(rows, rows[k])
        invariant rows == old(rows) && indexed == old(indexed)
      {
        var r := rows[i];
        if r.status == Offers.Pending {
          var keep := Keep(rows, r.seller, r.request);
          if keep.Some? && r.id != keep.value.id {
            r := r.(status := Offers.Cancelled);
          }
        }
        updated := updated + [r];
      }
      assert updated == Repaired(rows);
      IndexBuildsIff(rows);
      ok := Indexable(updated);
      if ok {
        rows, indexed := updated, true;
      }
    }
  }
}
