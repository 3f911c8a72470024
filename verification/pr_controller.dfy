/**
 * Part requests: `addNewRequest` builds and stores a `PRQ-` record, and
 * `getAll` lists the open ones, most recently modified first.
 */
module PRController {
  import opened Wrappers

  const PrqPrefix := "PRQ"

  /** The part object a job asks for; each field may be missing. */
  datatype PartInput = PartInput(partid: Option<string>, stockid: Option<string>, stockDesc: Option<string>, qty: Option<int>)

  /** `reqPart = {}`: the part argument when none is given. */
  const EmptyPart := PartInput(None, None, None, None)

  /**
   * A part-request record. `addNewRequest` sets neither `closed` nor
   * `modifiedAt`, so both are optional; other writers may set them.
   */
  datatype PartRequest = PartRequest(
    prqid: string,
    jobid: string,
    partid: Option<string>,
    stockid: Option<string>,
    stockDesc: Option<string>,
    reqQty: Option<int>,
    createdBy: string,
    modifiedBy: string,
    closed: Option<bool>,
    modifiedAt: Option<int>)

  /** The filter `{ closed: false }`: a record without `closed` does not match. */
  predicate IsOpen(r: PartRequest)
  {
    r.closed == Some(false)
  }

  /** The projection `-closed -_id -__v`: `closed` is not returned. */
  function Hide(r: PartRequest): PartRequest
  {
    r.(closed := None)
  }

  /** The open records, projected, in storage order. */
  function OpenRecords(rs: seq<PartRequest>): (open: seq<PartRequest>)
    ensures forall x :: x in open ==> x.closed.None?
    decreases |rs|
  {
    if rs == [] then []
    else (if IsOpen(rs[0]) then [Hide(rs[0])] else []) + OpenRecords(rs[1..])
  }

  /** The listing holds exactly the projections of the records with `closed == false`. */
  lemma {:induction false} OpenRecordsExact(rs: seq<PartRequest>, x: PartRequest)
    ensures x in OpenRecords(rs) <==> exists i :: 0 <= i < |rs| && IsOpen(rs[i]) && x == Hide(rs[i])
    decreases |rs|
  {
    if rs != [] {
      OpenRecordsExact(rs[1..], x);
      if x in OpenRecords(rs[1..]) {
        var i :| 0 <= i < |rs| - 1 && IsOpen(rs[1..][i]) && x == Hide(rs[1..][i]);
        assert rs[i + 1] == rs[1..][i];
      }
      if exists i :: 0 <= i < |rs| && IsOpen(rs[i]) && x == Hide(rs[i]) {
        var i :| 0 <= i < |rs| && IsOpen(rs[i]) && x == Hide(rs[i]);
        if i > 0 {
          assert rs[1..][i - 1] == rs[i];
        }
      }
    }
  }

  /** Appending records to storage appends their listing. */
  lemma {:induction false} OpenRecordsAppend(a: seq<PartRequest>, b: seq<PartRequest>)
    ensures OpenRecords(a + b) == OpenRecords(a) + OpenRecords(b)
    decreases |a|
  {
    if a != [] {
      assert (a + b)[1..] == a[1..] + b;
      OpenRecordsAppend(a[1..], b);
    } else {
      assert a + b == b;
    }
  }

  /** `modifiedAt` order for a descending sort; a missing value sorts below every present one. */
  predicate AtLeast(a: Option<int>, b: Option<int>)
  {
    b.None? || (a.Some? && a.value >= b.value)
  }

  /** Newest `modifiedAt` first. */
  predicate SortedDesc(s: seq<PartRequest>)
  {
    forall i, j :: 0 <= i < j < |s| ==> AtLeast(s[i].modifiedAt, s[j].modifiedAt)
  }

  /** Place `x` before the first element it is at least as new as. */
  function Insert(x: PartRequest, s: seq<PartRequest>): (r: seq<PartRequest>)
    requires SortedDesc(s)
    ensures SortedDesc(r)
    ensures multiset(r) == multiset(s) + multiset{x}
    decreases |s|
  {
    if s == [] then [x]
    else if AtLeast(x.modifiedAt, s[0].modifiedAt) then [x] + s
    else
      var rest := Insert(x, s[1..]);
      assert s == [s[0]] + s[1..];
      assert forall y :: y in rest ==> AtLeast(s[0].modifiedAt, y.modifiedAt) by {
        forall y | y in rest ensures AtLeast(s[0].modifiedAt, y.modifiedAt) {
          assert y in multiset(rest);
          if y != x {
            assert y in multiset(s[1..]);
            var k :| 0 <= k < |s[1..]| && s[1..][k] == y;
            assert s[k + 1] == y;
          }
        }
      }
      [s[0]] + rest
  }

  /** `.sort({ modifiedAt: -1 })`. */
  function SortDesc(s: seq<PartRequest>): (r: seq<PartRequest>)
    ensures SortedDesc(r)
    ensures multiset(r) == multiset(s)
    decreases |s|
  {
    if s == [] then []
    else
      assert s == [s[0]] + s[1..];
      Insert(s[0], SortDesc(s[1..]))
  }

  /** `getAll`: the open records, `closed` projected away, newest `modifiedAt` first. */
  function GetAll(requests: seq<PartRequest>): (r: seq<PartRequest>)
    ensures SortedDesc(r)
    ensures multiset(r) == multiset(OpenRecords(requests))
    ensures forall x :: x in r <==> exists i :: 0 <= i < |requests| && IsOpen(requests[i]) && x == Hide(requests[i])
  {
    var open := OpenRecords(requests);
    var r := SortDesc(open);
    assert forall x :: x in r <==> x in open by {
      forall x ensures x in r <==> x in open {
        assert x in r <==> x in multiset(r);
        assert x in open <==> x in multiset(open);
      }
    }
    forall x ensures x in r <==> exists i :: 0 <= i < |requests| && IsOpen(requests[i]) && x == Hide(requests[i]) {
      OpenRecordsExact(requests, x);
    }
    r
  }

  /** The record `addNewRequest` builds for a generated suffix. */
  function NewRequest(suffix: string, usrid: string, jobid: string, reqPart: PartInput): PartRequest
  {
    PartRequest(PrqPrefix + "-" + suffix, jobid, reqPart.partid, reqPart.stockid, reqPart.stockDesc, reqPart.qty,
                usrid, usrid, None, None)
  }

  /**
   * A record `addNewRequest` stores has no `closed` field, so `{ closed: false }`
   * does not select it: storing it leaves `getAll` as it was.
   */
  lemma NewRequestNotListed(requests: seq<PartRequest>, suffix: string, usrid: string, jobid: string, reqPart: PartInput)
    ensures GetAll(requests + [NewRequest(suffix, usrid, jobid, reqPart)]) == GetAll(requests)
  {
    var rec := NewRequest(suffix, usrid, jobid, reqPart);
    OpenRecordsAppend(requests, [rec]);
    assert OpenRecords([rec]) == [] + OpenRecords([rec][1..]);
    assert [rec][1..] == [];
    assert OpenRecords(requests + [rec]) == OpenRecords(requests);
  }

  /** The `PartRequest` collection. */
  class PartRequestRegistry {
    /** Stored records, oldest first. */
    var requests: seq<PartRequest>

    constructor (requests: seq<PartRequest>)
      ensures this.requests == requests
    {
      this.requests := requests;
    }

    /**
     * `addNewRequest(usrid, jobid, reqPart)` with `suffix` standing for
     * `generate()`: with both ids non-blank, store and return the record
     * `PRQ-<suffix>` copying the part's fields. The source's third test,
     * `reqPart !== {}`, compares with a fresh object literal and always
     * holds, so an empty part still makes a record.
     */
    method AddNewRequest(suffix: string, usrid: string := "", jobid: string := "", reqPart: PartInput := EmptyPart)
      returns (r: Option<PartRequest>)
      modifies this
      ensures usrid == "" || jobid == "" ==> r.None? && requests == old(requests)
      ensures usrid != "" && jobid != "" ==> r.Some? && requests == old(requests) + [r.value]
      ensures r.Some? ==>
        && r.value.prqid == PrqPrefix + "-" + suffix
        && r.value.jobid == jobid
        && r.value.partid == reqPart.partid && r.value.stockid == reqPart.stockid
        && r.value.stockDesc == reqPart.stockDesc && r.value.reqQty == reqPart.qty
        && r.value.createdBy == usrid && r.value.modifiedBy == usrid
        && r.value.closed.None? && r.value.modifiedAt.None?
      ensures r.Some? ==> r.value == NewRequest(suffix, usrid, jobid, reqPart)
      ensures GetAll(requests) == GetAll(old(requests))
    {
      r := None;
      if usrid != "" && jobid != "" {
        var record := NewRequest(suffix, usrid, jobid, reqPart);
        requests := requests + [record];
        r := Some(record);
        NewRequestNotListed(old(requests), suffix, usrid, jobid, reqPart);
      }
    }
  }
}
