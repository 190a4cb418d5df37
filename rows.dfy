/**
 * `Node_SnapshotListRowProcessor.handle_rows`: turns the rows of a view query
 * into snapshots, fetches all their documents in one multi-get, and copies
 * each document's `customer_id` onto the snapshot registered for its key.
 */
module RowProcessor {
  import opened DocStore
  import opened Snapshot

  /** One view row: the document id and the emitted key (used as the name). */
  datatype Row = Row(id: string, key: string)

  /** `[x.id for x in ret]` when `ret` holds one snapshot per row. */
  function Ids(rows: seq<Row>): (ids: seq<string>)
    ensures |ids| == |rows|
    ensures forall k :: 0 <= k < |rows| ==> ids[k] == rows[k].id
  {
    seq(|rows|, k requires 0 <= k < |rows| => rows[k].id)
  }

  /** No later row has the same id: the row whose snapshot `by_docids` keeps. */
  predicate IsLast(rows: seq<Row>, k: int)
    requires 0 <= k < |rows|
  {
    forall j :: k < j < |rows| ==> rows[j].id != rows[k].id
  }

  /** Some row's document is not in the bucket, so its fetch fails. */
  predicate AnyFetchFails(rows: seq<Row>, bucket: Bucket)
  {
    exists k :: 0 <= k < |rows| && rows[k].id !in bucket
  }

  /** Some fetched document has no `customer_id` entry. */
  predicate AnyCustomerIdMissing(rows: seq<Row>, bucket: Bucket)
  {
    exists k :: 0 <= k < |rows| && rows[k].id in bucket && CustomerIdField !in bucket[rows[k].id]
  }

  /**
   * The exceptions `handle_rows` as written can end with: it returns normally
   * exactly when no fetch fails and every fetched document has `customer_id`;
   * a ValueError needs a failed fetch and a KeyError a document without
   * `customer_id` (which one comes first depends on the visiting order).
   */
  predicate RaisedAsWritten(raised: Option<PyError>, rows: seq<Row>, bucket: Bucket)
  {
    && (raised.None? <==> !AnyFetchFails(rows, bucket) && !AnyCustomerIdMissing(rows, bucket))
    && (raised == None || raised == Some(ValueError) || raised == Some(KeyError))
    && (raised == Some(ValueError) ==> AnyFetchFails(rows, bucket))
    && (raised == Some(KeyError) ==> AnyCustomerIdMissing(rows, bucket))
  }

  /** What a caller can observe of a snapshot the row processor returns. */
  datatype SnapshotView = SnapshotView(id: string, name: string, customerId: Option<Value>)

  function ViewOf(s: NodeSnapshot): SnapshotView
    reads s
  {
    SnapshotView(s.id, s.name, s.customerId)
  }

  function Views(snaps: seq<NodeSnapshot>): (vs: seq<SnapshotView>)
    reads set k | 0 <= k < |snaps| :: snaps[k]
    ensures |vs| == |snaps|
    ensures forall k :: 0 <= k < |snaps| ==> vs[k] == ViewOf(snaps[k])
  {
    if snaps == [] then [] else [ViewOf(snaps[0])] + Views(snaps[1..])
  }

  /** The `customer_id` the row at index k ends up with. */
  function CustomerIdAt(rows: seq<Row>, k: int, bucket: Bucket): Option<Value>
    requires 0 <= k < |rows|
  {
    var id := rows[k].id;
    if IsLast(rows, k) && id in bucket && CustomerIdField in bucket[id]
    then Some(bucket[id][CustomerIdField])
    else None
  }

  /**
   * The reference result: one view per row, in row order, named by the row's
   * key, where only the last row of each id carries its document's `customer_id`.
   */
  function ExpectedViews(rows: seq<Row>, bucket: Bucket): seq<SnapshotView>
  {
    seq(|rows|, k requires 0 <= k < |rows| => SnapshotView(rows[k].id, rows[k].key, CustomerIdAt(rows, k, bucket)))
  }

  /** With a duplicated id, an earlier row never receives `customer_id`. */
  lemma DuplicateIdKeepsLast(rows: seq<Row>, bucket: Bucket, i: int, j: int)
    requires 0 <= i < j < |rows| && rows[i].id == rows[j].id
    ensures ExpectedViews(rows, bucket)[i].customerId == None
  {
    assert !IsLast(rows, i);
  }

  /**
   * With distinct ids whose documents all exist and carry `customer_id`,
   * every row's view carries its own document's `customer_id`.
   */
  lemma DistinctIdsAllAssigned(rows: seq<Row>, bucket: Bucket)
    requires forall i, j :: 0 <= i < j < |rows| ==> rows[i].id != rows[j].id
    requires !AnyFetchFails(rows, bucket) && !AnyCustomerIdMissing(rows, bucket)
    ensures forall k :: 0 <= k < |rows| ==>
              rows[k].id in bucket && CustomerIdField in bucket[rows[k].id] &&
              ExpectedViews(rows, bucket)[k] == SnapshotView(rows[k].id, rows[k].key, Some(bucket[rows[k].id][CustomerIdField]))
  {
    forall k | 0 <= k < |rows|
      ensures rows[k].id in bucket && CustomerIdField in bucket[rows[k].id]
      ensures IsLast(rows, k)
    {
    }
  }

  /** The `customer_id` row k's snapshot has once the documents of the ids in `done` are copied. */
  function AssignedAt(rows: seq<Row>, bucket: Bucket, done: set<string>, k: int): Option<Value>
    requires 0 <= k < |rows|
  {
    if rows[k].id in done then CustomerIdAt(rows, k, bucket) else None
  }

  /** The snapshots' `customer_id` attributes are those of `AssignedAt`. */
  predicate CustomerIdsAre(ret: seq<NodeSnapshot>, rows: seq<Row>, bucket: Bucket, done: set<string>)
    reads set k | 0 <= k < |ret| :: ret[k]
  {
    |ret| == |rows| && forall k :: 0 <= k < |ret| ==> ret[k].customerId == AssignedAt(rows, bucket, done, k)
  }

  /** The set of the rows' ids. */
  function IdSet(rows: seq<Row>): set<string>
  {
    set k | 0 <= k < |rows| :: rows[k].id
  }

  /**
   * The state after the first loop of `handle_rows`: snapshot k belongs to row
   * k, the snapshots are distinct objects, and `by_docids` maps each id to the
   * snapshot of its last row.
   */
  predicate Registered(rows: seq<Row>, ret: seq<NodeSnapshot>, byDocIds: map<string, NodeSnapshot>)
  {
    && |ret| == |rows|
    && (forall k :: 0 <= k < |rows| ==>
          ret[k].id == rows[k].id && ret[k].name == rows[k].key && ret[k].doc == None && ret[k].customer == Null)
    && (forall i, j :: 0 <= i < j < |ret| ==> ret[i] != ret[j])
    && byDocIds.Keys == IdSet(rows)
    && (forall id :: id in byDocIds ==> byDocIds[id].id == id)
    && (forall k :: 0 <= k < |rows| ==> (byDocIds[rows[k].id] == ret[k] <==> IsLast(rows, k)))
  }

  /** Once every id is done, the snapshots show exactly the reference result. */
  lemma ViewsWhenDone(rows: seq<Row>, ret: seq<NodeSnapshot>, byDocIds: map<string, NodeSnapshot>, bucket: Bucket, done: set<string>)
    requires Registered(rows, ret, byDocIds)
    requires IdSet(rows) <= done
    requires CustomerIdsAre(ret, rows, bucket, done)
    ensures Views(ret) == ExpectedViews(rows, bucket)
  {
    forall k | 0 <= k < |rows| ensures Views(ret)[k] == ExpectedViews(rows, bucket)[k] {
      assert rows[k].id in IdSet(rows);
    }
  }

  /** The index of the first element equal to the target, or |xs| when there is none. */
  function FirstMatch<T>(xs: seq<T>, equalsTarget: T -> bool): (i: nat)
    ensures i <= |xs|
    ensures forall j :: 0 <= j < i ==> !equalsTarget(xs[j])
    ensures i < |xs| ==> equalsTarget(xs[i])
  {
    if xs == [] || equalsTarget(xs[0]) then 0 else 1 + FirstMatch(xs[1..], equalsTarget)
  }

  /**
   * `list.remove(x)`: removes the first element equal to x, or fails (a
   * ValueError in Python) when there is none.
   */
  function ListRemove<T>(xs: seq<T>, equalsTarget: T -> bool): (r: Option<seq<T>>)
    ensures r.None? <==> forall k :: 0 <= k < |xs| ==> !equalsTarget(xs[k])
    ensures r.Some? ==> |r.value| == |xs| - 1
    ensures r.Some? ==> var i := FirstMatch(xs, equalsTarget);
                          forall k :: 0 <= k < |r.value| ==> r.value[k] == if k < i then xs[k] else xs[k + 1]
  {
    var i := FirstMatch(xs, equalsTarget);
    if i == |xs| then None else Some(xs[..i] + xs[i + 1..])
  }

  /**
   * Python's `==` between a `Node_Snapshot` and a string: the class defines
   * no `__eq__`, so the comparison is by identity, and a snapshot is never
   * the same object as a string.
   */
  predicate SnapshotEqualsStr(s: NodeSnapshot, x: string)
  {
    false
  }

  /** `ret.remove(log_id)`: no snapshot equals a string, so the removal always fails. */
  function RemoveFrom(ret: seq<NodeSnapshot>, logId: string): (r: Option<seq<NodeSnapshot>>)
    ensures r.None?
  {
    ListRemove(ret, s => SnapshotEqualsStr(s, logId))
  }

  /**
   * The first loop of `handle_rows`: one new snapshot per row, in order, and
   * the `by_docids` table, where a later row overwrites an earlier one with
   * the same id.
   */
  method BuildSnapshots(rows: seq<Row>) returns (ret: seq<NodeSnapshot>, byDocIds: map<string, NodeSnapshot>)
    ensures Registered(rows, ret, byDocIds)
    ensures forall k :: 0 <= k < |ret| ==> fresh(ret[k]) && ret[k].customerId == None
    ensures forall id :: id in byDocIds ==> fresh(byDocIds[id])
  {
    ret, byDocIds := [], map[];
    for i := 0 to |rows|
      invariant |ret| == i
      invariant forall k :: 0 <= k < i ==>
                  fresh(ret[k]) && ret[k].id == rows[k].id && ret[k].name == rows[k].key &&
                  ret[k].doc == None && ret[k].customer == Null && ret[k].customerId == None
      invariant forall a, b :: 0 <= a < b < i ==> ret[a] != ret[b]
      invariant byDocIds.Keys == set k | 0 <= k < i :: rows[k].id
      invariant forall id :: id in byDocIds ==> byDocIds[id].id == id && fresh(byDocIds[id])
      invariant forall k :: 0 <= k < i ==>
                  (byDocIds[rows[k].id] == ret[k] <==> forall j :: k < j < i ==> rows[j].id != rows[k].id)
    {
      ghost var before, table := ret, byDocIds;
      var b := new NodeSnapshot(rows[i].id, rows[i].key, None);
      ret := ret + [b];
      byDocIds := byDocIds[b.id := b];
      forall k | 0 <= k < i + 1
        ensures byDocIds[rows[k].id] == ret[k] <==> forall j :: k < j < i + 1 ==> rows[j].id != rows[k].id
      {
        if k < i {
          assert ret[k] == before[k] != b;
          if rows[k].id != rows[i].id {
            assert byDocIds[rows[k].id] == table[rows[k].id];
          }
        }
      }
    }
    assert byDocIds.Keys == IdSet(rows);
  }

  /**
   * `log = by_docids[log_id]; log.customer_id = doc.value['customer_id']`:
   * the fetched value lands on the snapshot of the id's last row only.
   */
  method AssignCustomerId(ghost rows: seq<Row>, ret: seq<NodeSnapshot>, byDocIds: map<string, NodeSnapshot>,
                          ghost bucket: Bucket, ghost done: set<string>, logId: string, value: Value)
    requires Registered(rows, ret, byDocIds)
    requires logId in byDocIds && logId in bucket && CustomerIdField in bucket[logId]
    requires value == bucket[logId][CustomerIdField]
    requires CustomerIdsAre(ret, rows, bucket, done)
    modifies byDocIds[logId]
    ensures CustomerIdsAre(ret, rows, bucket, done + {logId})
  {
    var log := byDocIds[logId];
    log.customerId := Some(value);
    forall k | 0 <= k < |ret| ensures ret[k].customerId == AssignedAt(rows, bucket, done + {logId}, k) {
      if ret[k] == log {
        assert rows[k].id == logId;
      } else {
        assert !(rows[k].id == logId && IsLast(rows, k));
      }
    }
  }

  /** The fetch results describe the bucket: `docs` is `get_multi` of the rows' ids. */
  predicate FetchedFrom(docs: map<string, Fetched>, rows: seq<Row>, bucket: Bucket)
  {
    && docs.Keys == IdSet(rows)
    && forall id :: id in docs ==>
         (docs[id].Found? <==> id in bucket) && (docs[id].Found? ==> docs[id].doc == bucket[id])
  }

  /**
   * One iteration of the second loop of `handle_rows` as written. A failed
   * fetch reaches `ret.remove(log_id)`, which finds no element equal to the
   * id and raises a ValueError; a fetched document without `customer_id`
   * raises a KeyError; otherwise the document's `customer_id` is copied.
   */
  method VisitFetched(ghost rows: seq<Row>, ret: seq<NodeSnapshot>, byDocIds: map<string, NodeSnapshot>,
                      docs: map<string, Fetched>, ghost bucket: Bucket, ghost done: set<string>, logId: string)
      returns (raised: Option<PyError>)
    requires Registered(rows, ret, byDocIds)
    requires FetchedFrom(docs, rows, bucket)
    requires logId in docs
    requires CustomerIdsAre(ret, rows, bucket, done)
    modifies byDocIds[logId]
    ensures raised == None || raised == Some(ValueError) || raised == Some(KeyError)
    ensures raised == Some(ValueError) <==> docs[logId].Failed?
    ensures raised == Some(KeyError) <==> docs[logId].Found? && CustomerIdField !in docs[logId].doc
    ensures raised.Some? ==> unchanged(byDocIds[logId])
    ensures raised == Some(ValueError) ==> AnyFetchFails(rows, bucket)
    ensures raised == Some(KeyError) ==> AnyCustomerIdMissing(rows, bucket)
    ensures raised.None? ==> logId in bucket && CustomerIdField in bucket[logId]
    ensures raised.None? ==> CustomerIdsAre(ret, rows, bucket, done + {logId})
  {
    var fetched := docs[logId];
    if fetched.Failed? {
      match RemoveFrom(ret, logId)
      case None =>
        ghost var k :| 0 <= k < |rows| && rows[k].id == logId;
        return Some(ValueError);
    }
    if CustomerIdField !in fetched.doc {
      ghost var k :| 0 <= k < |rows| && rows[k].id == logId;
      return Some(KeyError);
    }
    AssignCustomerId(rows, ret, byDocIds, bucket, done, logId, fetched.doc[CustomerIdField]);
    raised := None;
  }

  /**
   * The second loop of `handle_rows` as written, over the multi-get's results
   * in the dictionary's own order. It issues no request of its own, so the
   * connection's batch log is unchanged.
   */
  method CopyCustomerIds(ghost rows: seq<Row>, ret: seq<NodeSnapshot>, byDocIds: map<string, NodeSnapshot>,
                         docs: map<string, Fetched>, ghost bucket: Bucket, ghost conn: Connection)
      returns (raised: Option<PyError>)
    requires Registered(rows, ret, byDocIds)
    requires FetchedFrom(docs, rows, bucket)
    requires forall k :: 0 <= k < |ret| ==> ret[k].customerId == None
    requires forall id :: id in byDocIds ==> byDocIds[id] as object != conn
    modifies set id | id in byDocIds :: byDocIds[id]
    ensures conn.batches == old(conn.batches)
    ensures RaisedAsWritten(raised, rows, bucket)
    ensures raised.None? ==> Views(ret) == ExpectedViews(rows, bucket)
  {
    assert CustomerIdsAre(ret, rows, bucket, {});
    var remaining := docs.Keys;
    ghost var done: set<string> := {};
    while remaining != {}
      invariant remaining <= docs.Keys && done <= docs.Keys
      invariant forall id :: id in docs ==> (id in done <==> id !in remaining)
      invariant forall id :: id in done ==> id in bucket && CustomerIdField in bucket[id]
      invariant CustomerIdsAre(ret, rows, bucket, done)
      decreases |remaining|
    {
      var logId :| logId in remaining;
      raised := VisitFetched(rows, ret, byDocIds, docs, bucket, done, logId);
      if raised.Some? {
        return;
      }
      remaining, done := remaining - {logId}, done + {logId};
    }
    ViewsWhenDone(rows, ret, byDocIds, bucket, done);
    forall k | 0 <= k < |rows| ensures rows[k].id in docs.Keys {
    }
    raised := None;
  }

  /** `conn.get_multi([x.id for x in ret], quiet=True)`. */
  method FetchAll(ghost rows: seq<Row>, ret: seq<NodeSnapshot>, ghost byDocIds: map<string, NodeSnapshot>, conn: Connection)
      returns (docs: map<string, Fetched>)
    requires Registered(rows, ret, byDocIds)
    modifies conn
    ensures conn.batches == old(conn.batches) + [Ids(rows)]
    ensures FetchedFrom(docs, rows, conn.bucket)
  {
    var keysToFetch := seq(|ret|, k requires 0 <= k < |ret| => ret[k].id);
    assert keysToFetch == Ids(rows);
    docs := conn.GetMulti(keysToFetch);
    assert docs.Keys == IdSet(rows) by {
      forall id ensures id in docs <==> id in IdSet(rows) {
        if id in docs {
          var k :| 0 <= k < |keysToFetch| && keysToFetch[k] == id;
        }
      }
    }
  }

  /**
   * `handle_rows` as written: one snapshot per row, one multi-get for the
   * rows' ids in row order, then the `customer_id` copy. When nothing is
   * raised, every row has its snapshot, and only the last snapshot of each id
   * carries `customer_id`.
   */
  method HandleRows(rows: seq<Row>, conn: Connection) returns (raised: Option<PyError>, ret: seq<NodeSnapshot>)
    modifies conn
    ensures conn.batches == old(conn.batches) + [Ids(rows)]
    ensures RaisedAsWritten(raised, rows, conn.bucket)
    ensures raised.Some? ==> ret == []
    ensures raised.None? ==> Views(ret) == ExpectedViews(rows, conn.bucket)
    ensures raised.None? ==> forall k :: 0 <= k < |ret| ==>
              fresh(ret[k]) && ret[k].doc == None && ret[k].customer == Null
    ensures forall i, j :: 0 <= i < j < |ret| ==> ret[i] != ret[j]
  {
    var byDocIds;
    ret, byDocIds := BuildSnapshots(rows);
    var docs := FetchAll(rows, ret, byDocIds, conn);
    raised := CopyCustomerIds(rows, ret, byDocIds, docs, conn.bucket, conn);
    if raised.Some? {
      ret := [];
    }
  }

  /**
   * Drops the snapshots whose id is in `failed`, keeping the others in order.
   */
  function DropIds(snaps: seq<NodeSnapshot>, failed: set<string>): (r: seq<NodeSnapshot>)
    ensures |r| <= |snaps|
    ensures forall k :: 0 <= k < |r| ==> r[k] in snaps && r[k].id !in failed
    ensures forall s :: s in snaps && s.id !in failed ==> s in r
    ensures (forall i, j :: 0 <= i < j < |snaps| ==> snaps[i] != snaps[j]) ==>
              forall i, j :: 0 <= i < j < |r| ==> r[i] != r[j]
  {
    if snaps == [] then []
    else if snaps[0].id in failed then DropIds(snaps[1..], failed)
    else [snaps[0]] + DropIds(snaps[1..], failed)
  }

  /** Keeps the views whose document is in the bucket, in order. */
  function Resolved(views: seq<SnapshotView>, bucket: Bucket): (r: seq<SnapshotView>)
    ensures |r| <= |views|
    ensures forall v :: v in r <==> v in views && v.id in bucket
  {
    if views == [] then []
    else if views[0].id in bucket then [views[0]] + Resolved(views[1..], bucket)
    else Resolved(views[1..], bucket)
  }

  /** Filtering distributes over concatenation, so it never reorders. */
  lemma {:induction false} ResolvedAppend(a: seq<SnapshotView>, b: seq<SnapshotView>, bucket: Bucket)
    ensures Resolved(a + b, bucket) == Resolved(a, bucket) + Resolved(b, bucket)
  {
    if a != [] {
      assert (a + b)[0] == a[0];
      assert (a + b)[1..] == a[1..] + b;
      ResolvedAppend(a[1..], b, bucket);
    } else {
      assert a + b == b;
    }
  }

  /** Dropping the failed ids from the snapshots filters their views. */
  lemma {:induction false} ViewsOfDropIds(snaps: seq<NodeSnapshot>, failed: set<string>, bucket: Bucket)
    requires forall k :: 0 <= k < |snaps| ==> (snaps[k].id in failed <==> snaps[k].id !in bucket)
    ensures Views(DropIds(snaps, failed)) == Resolved(Views(snaps), bucket)
  {
    if snaps != [] {
      ViewsOfDropIds(snaps[1..], failed, bucket);
      assert Views(snaps)[1..] == Views(snaps[1..]);
      if snaps[0].id !in failed {
        assert Views([snaps[0]] + DropIds(snaps[1..], failed)) == [ViewOf(snaps[0])] + Views(DropIds(snaps[1..], failed));
      }
    }
  }

  /** The ids whose fetch failed. */
  function FailedIds(docs: map<string, Fetched>): (failed: set<string>)
    ensures forall id :: id in failed <==> id in docs && docs[id].Failed?
  {
    set id | id in docs && docs[id].Failed?
  }

  /** The snapshots whose fetch did not fail, in row order. */
  method KeepResolved(ghost rows: seq<Row>, snaps: seq<NodeSnapshot>, ghost byDocIds: map<string, NodeSnapshot>,
                      docs: map<string, Fetched>, ghost bucket: Bucket)
      returns (ret: seq<NodeSnapshot>)
    requires Registered(rows, snaps, byDocIds)
    requires FetchedFrom(docs, rows, bucket)
    requires Views(snaps) == ExpectedViews(rows, bucket)
    ensures Views(ret) == Resolved(ExpectedViews(rows, bucket), bucket)
    ensures forall k :: 0 <= k < |ret| ==> ret[k] in snaps
    ensures forall i, j :: 0 <= i < j < |ret| ==> ret[i] != ret[j]
  {
    var failed := FailedIds(docs);
    forall k | 0 <= k < |snaps| ensures snaps[k].id in failed <==> snaps[k].id !in bucket {
      assert rows[k].id in IdSet(rows);
    }
    ViewsOfDropIds(snaps, failed, bucket);
    ret := DropIds(snaps, failed);
  }

  /**
   * One iteration of the second loop with the evidently intended handling of
   * a failed fetch: the id is skipped instead of raising.
   */
  method VisitFetchedFiltered(ghost rows: seq<Row>, snaps: seq<NodeSnapshot>, byDocIds: map<string, NodeSnapshot>,
                              docs: map<string, Fetched>, ghost bucket: Bucket, ghost done: set<string>, logId: string)
      returns (raised: Option<PyError>)
    requires Registered(rows, snaps, byDocIds)
    requires FetchedFrom(docs, rows, bucket)
    requires logId in docs
    requires CustomerIdsAre(snaps, rows, bucket, done)
    modifies byDocIds[logId]
    ensures raised.Some? ==> raised == Some(KeyError) && AnyCustomerIdMissing(rows, bucket)
    ensures docs[logId].Failed? ==> raised.None?
    ensures raised == Some(KeyError) <==> docs[logId].Found? && CustomerIdField !in docs[logId].doc
    ensures raised.Some? || docs[logId].Failed? ==> unchanged(byDocIds[logId])
    ensures raised.None? && logId in bucket ==> CustomerIdField in bucket[logId]
    ensures raised.None? ==> CustomerIdsAre(snaps, rows, bucket, done + {logId})
  {
    var fetched := docs[logId];
    if fetched.Failed? {
      forall k | 0 <= k < |snaps| ensures AssignedAt(rows, bucket, done + {logId}, k) == AssignedAt(rows, bucket, done, k) {
      }
      return None;
    }
    if CustomerIdField !in fetched.doc {
      ghost var k :| 0 <= k < |rows| && rows[k].id == logId;
      return Some(KeyError);
    }
    AssignCustomerId(rows, snaps, byDocIds, bucket, done, logId, fetched.doc[CustomerIdField]);
    raised := None;
  }

  /** The second loop with the evidently intended handling of a failed fetch. */
  method CopyCustomerIdsFiltered(ghost rows: seq<Row>, snaps: seq<NodeSnapshot>, byDocIds: map<string, NodeSnapshot>,
                                 docs: map<string, Fetched>, ghost bucket: Bucket)
      returns (raised: Option<PyError>)
    requires Registered(rows, snaps, byDocIds)
    requires FetchedFrom(docs, rows, bucket)
    requires forall k :: 0 <= k < |snaps| ==> snaps[k].customerId == None
    modifies set id | id in byDocIds :: byDocIds[id]
    ensures raised.None? <==> !AnyCustomerIdMissing(rows, bucket)
    ensures raised.Some? ==> raised == Some(KeyError)
    ensures raised.None? ==> Views(snaps) == ExpectedViews(rows, bucket)
  {
    assert CustomerIdsAre(snaps, rows, bucket, {});
    var remaining := docs.Keys;
    ghost var done: set<string> := {};
    while remaining != {}
      invariant remaining <= docs.Keys && done <= docs.Keys
      invariant forall id :: id in docs ==> (id in done <==> id !in remaining)
      invariant forall id :: id in done && id in bucket ==> CustomerIdField in bucket[id]
      invariant CustomerIdsAre(snaps, rows, bucket, done)
      decreases |remaining|
    {
      var logId :| logId in remaining;
      raised := VisitFetchedFiltered(rows, snaps, byDocIds, docs, bucket, done, logId);
      if raised.Some? {
        return;
      }
      remaining, done := remaining - {logId}, done + {logId};
    }
    ViewsWhenDone(rows, snaps, byDocIds, bucket, done);
    forall k | 0 <= k < |rows| ensures rows[k].id in docs.Keys {
    }
    raised := None;
  }

  /**
   * The evidently intended `handle_rows`: a failed fetch drops that id's
   * snapshots instead of raising; the result keeps the row order. A fetched
   * document without `customer_id` still raises a KeyError.
   */
  method HandleRowsFiltered(rows: seq<Row>, conn: Connection) returns (raised: Option<PyError>, ret: seq<NodeSnapshot>)
    modifies conn
    ensures conn.batches == old(conn.batches) + [Ids(rows)]
    ensures raised.None? <==> !AnyCustomerIdMissing(rows, conn.bucket)
    ensures raised.Some? ==> raised == Some(KeyError) && ret == []
    ensures raised.None? ==> Views(ret) == Resolved(ExpectedViews(rows, conn.bucket), conn.bucket)
    ensures raised.None? ==> forall k :: 0 <= k < |ret| ==>
              fresh(ret[k]) && ret[k].doc == None && ret[k].customer == Null
    ensures forall i, j :: 0 <= i < j < |ret| ==> ret[i] != ret[j]
  {
    var snaps, byDocIds := BuildSnapshots(rows);
    var docs := FetchAll(rows, snaps, byDocIds, conn);
    raised := CopyCustomerIdsFiltered(rows, snaps, byDocIds, docs, conn.bucket);
    if raised.Some? {
      ret := [];
    } else {
      ret := KeepResolved(rows, snaps, byDocIds, docs, conn.bucket);
      forall k | 0 <= k < |ret| ensures fresh(ret[k]) && ret[k].doc == None && ret[k].customer == Null {
        var j :| 0 <= j < |snaps| && snaps[j] == ret[k];
      }
    }
  }

  /**
   * The stale-index case: the index still lists a log whose document has been
   * deleted. As written, the row processor raises instead of omitting it.
   */
  method StaleIndexAsWritten() returns (raised: Option<PyError>)
    ensures raised == Some(ValueError)
  {
    var conn := new Connection(map["idA" := map[CustomerIdField := Str("c1")]]);
    var rows := [Row("idA", "alice-log"), Row("idB", "bob-log")];
    assert rows[1].id !in conn.bucket;
    var ret;
    raised, ret := HandleRows(rows, conn);
  }

  /** The same case with the intended filtering: only alice-log remains. */
  method StaleIndexFiltered() returns (raised: Option<PyError>, names: seq<string>)
    ensures raised == None && names == ["alice-log"]
  {
    var conn := new Connection(map["idA" := map[CustomerIdField := Str("c1")]]);
    var rows := [Row("idA", "alice-log"), Row("idB", "bob-log")];
    var ret;
    raised, ret := HandleRowsFiltered(rows, conn);
    var expected := ExpectedViews(rows, conn.bucket);
    assert expected == [expected[0]] + [expected[1]];
    ResolvedAppend([expected[0]], [expected[1]], conn.bucket);
    assert Views(ret) == [expected[0]];
    names := [ret[0].name];
  }
}
