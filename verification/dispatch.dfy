/**
 * Issuing the copies: `copy_to_bucket`, the sequential loop of generate_data.py,
 * and the worker records and worker map of app.py.
 */
module Dispatch {
  import opened Wrappers
  import opened Types
  import Naming
  import Seqs

  /**
   * `copy_to_bucket(src_bucket, dest_bucket, filename)`: one server-side copy of
   * `filename` into `dest_bucket` under `token` followed by the key's extension.
   */
  function CopyToBucket(srcBucket: string, destBucket: string, filename: string, token: string): (c: CopyCall)
    ensures c.srcBucket == srcBucket && c.srcKey == filename && c.destBucket == destBucket
    ensures |token| <= |c.destKey| && c.destKey[..|token|] == token
    ensures Naming.ExtensionShaped(c.destKey[|token|..])
    ensures |c.destKey| - |token| <= |filename|
            && c.destKey[|token|..] == filename[|filename| - (|c.destKey| - |token|)..]
    ensures |c.destKey| == |token| <==> !Naming.HasExtension(filename)
  {
    CopyCall(srcBucket, filename, destBucket, Naming.DestName(token, filename))
  }

  /** The contract above leaves one name: the token followed by `splitext(filename)[1]`. */
  lemma CopyNamedTokenThenExtension(srcBucket: string, destBucket: string, filename: string, token: string)
    ensures CopyToBucket(srcBucket, destBucket, filename, token).destKey == token + Naming.Extension(filename)
  {
    var name := CopyToBucket(srcBucket, destBucket, filename, token).destKey;
    Naming.ExtensionUnique(filename, name[|token|..]);
    assert name == name[..|token|] + name[|token|..];
  }

  /** The copy the loop issues for each entry, the k-th copy using the k-th token. */
  function CopyPlan(srcBucket: string, destBucket: string, files: seq<FileEntry>, token: nat -> string): (r: seq<CopyCall>)
    ensures |r| == |files|
    ensures forall k :: 0 <= k < |files| ==> r[k] == CopyToBucket(srcBucket, destBucket, files[k].filename, token(k))
  {
    seq(|files|, i requires 0 <= i < |files| => CopyToBucket(srcBucket, destBucket, files[i].filename, token(i)))
  }

  function SourceKeyOf(c: CopyCall): string
  {
    c.srcKey
  }

  /** The source keys of a sequence of copies, in order. */
  function SourceKeys(calls: seq<CopyCall>): seq<string>
  {
    Seqs.MapAppend(SourceKeyOf, calls)
  }

  /** Copies issued by a loop, and the index of the copy that raised, if any. */
  datatype Dispatched = Dispatched(issued: seq<CopyCall>, failedAt: Option<nat>)

  /**
   * `for i in file_listing: copy_to_bucket(...)`: copies are issued in list order
   * and the first one that raises ends the loop, so what was issued is the
   * prefix up to and including that copy.
   */
  function RunSequential(plan: seq<CopyCall>, accepts: CopyCall -> bool): (r: Dispatched)
    ensures r.failedAt.None? <==> forall i :: 0 <= i < |plan| ==> accepts(plan[i])
    ensures r.failedAt.None? ==> r.issued == plan
    ensures r.failedAt.Some? ==>
              && r.failedAt.value < |plan|
              && r.issued == plan[..r.failedAt.value + 1]
              && !accepts(plan[r.failedAt.value])
              && forall i :: 0 <= i < r.failedAt.value ==> accepts(plan[i])
    decreases |plan|
  {
    if plan == [] then Dispatched([], None)
    else if !accepts(plan[0]) then Dispatched([plan[0]], Some(0))
    else
      var rest := RunSequential(plan[1..], accepts);
      assert forall i :: 1 <= i < |plan| ==> plan[i] == plan[1..][i - 1];
      match rest.failedAt
      case None =>
        assert [plan[0]] + plan[1..] == plan;
        Dispatched(plan, None)
      case Some(k) =>
        ConsPrefix(plan, k + 1);
        Dispatched(plan[..k + 2], Some(k + 1))
  }

  /** Putting the head back in front of a prefix of the tail gives a prefix of the whole. */
  lemma ConsPrefix<T>(s: seq<T>, n: nat)
    requires n < |s|
    ensures [s[0]] + s[1..][..n] == s[..n + 1]
  {
  }

  /** The record `main` in app.py builds for each worker. */
  datatype WorkItem = WorkItem(srcBucket: string, destBucket: string, filename: string)

  /** The `worker_data` loop: one record per resized entry, carrying the two buckets and its filename. */
  function WorkerData(srcBucket: string, destBucket: string, files: seq<FileEntry>): (r: seq<WorkItem>)
    ensures |r| == |files|
    ensures forall i :: 0 <= i < |files| ==>
              r[i].srcBucket == srcBucket && r[i].destBucket == destBucket && r[i].filename == files[i].filename
  {
    Seqs.MapAppend((f: FileEntry) => WorkItem(srcBucket, destBucket, f.filename), files)
  }

  /** `worker(data)`: exactly one copy, taken from the record's fields. */
  function Worker(item: WorkItem, token: string): (c: CopyCall)
    ensures c.srcBucket == item.srcBucket && c.srcKey == item.filename && c.destBucket == item.destBucket
    ensures |token| <= |c.destKey| && c.destKey[..|token|] == token
    ensures Naming.ExtensionShaped(c.destKey[|token|..])
    ensures |c.destKey| - |token| <= |item.filename|
            && c.destKey[|token|..] == item.filename[|item.filename| - (|c.destKey| - |token|)..]
    ensures |c.destKey| == |token| <==> !Naming.HasExtension(item.filename)
  {
    CopyToBucket(item.srcBucket, item.destBucket, item.filename, token)
  }

  /** The contract of `Worker` leaves one name: the token followed by the record's extension. */
  lemma WorkerNamedTokenThenExtension(item: WorkItem, token: string)
    ensures Worker(item, token).destKey == token + Naming.Extension(item.filename)
  {
    var name := Worker(item, token).destKey;
    Naming.ExtensionUnique(item.filename, name[|token|..]);
    assert name == name[..|token|] + name[|token|..];
  }

  /** Copies made by workers, one per record in order, are named after their records. */
  lemma WorkerCopiesNamed(items: seq<WorkItem>, token: nat -> string, issued: seq<CopyCall>)
    requires |issued| == |items|
    requires forall i :: 0 <= i < |items| ==> issued[i] == Worker(items[i], token(i))
    ensures forall i :: 0 <= i < |items| ==> issued[i].destKey == token(i) + Naming.Extension(items[i].filename)
  {
    forall i | 0 <= i < |items|
      ensures issued[i].destKey == token(i) + Naming.Extension(items[i].filename)
    {
      WorkerNamedTokenThenExtension(items[i], token(i));
    }
  }

  /** The record a copy was issued for. */
  function Origin(c: CopyCall): WorkItem
  {
    WorkItem(c.srcBucket, c.destBucket, c.srcKey)
  }

  /** A worker's copy is made for its own record. */
  lemma WorkerCopiesItsRecord(item: WorkItem, token: string)
    ensures Origin(Worker(item, token)) == item
  {
  }

  /** Every record handed to a worker, the i-th under the i-th token. */
  function WorkerCopies(items: seq<WorkItem>, token: nat -> string): (r: seq<CopyCall>)
    ensures |r| == |items|
    ensures forall i :: 0 <= i < |items| ==> r[i] == Worker(items[i], token(i))
  {
    seq(|items|, i requires 0 <= i < |items| => Worker(items[i], token(i)))
  }

  lemma WorkersCopyTheirRecords(items: seq<WorkItem>, token: nat -> string, issued: seq<CopyCall>)
    requires |issued| == |items|
    requires forall i :: 0 <= i < |items| ==> issued[i] == Worker(items[i], token(i))
    ensures forall i :: 0 <= i < |items| ==> Origin(issued[i]) == items[i]
  {
    forall i | 0 <= i < |items|
      ensures Origin(issued[i]) == items[i]
    {
      WorkerCopiesItsRecord(items[i], token(i));
    }
  }

  /**
   * `pool.map(worker, worker_data)`, taken sequentially: every record is handed
   * to a worker once, and the map raises if any worker raised.
   */
  function MapWorkers(items: seq<WorkItem>, token: nat -> string, accepts: CopyCall -> bool): (d: Dispatched)
    ensures |d.issued| == |items|
    ensures forall i :: 0 <= i < |items| ==> d.issued[i] == Worker(items[i], token(i))
    ensures forall i :: 0 <= i < |items| ==> Origin(d.issued[i]) == items[i]
    ensures d.failedAt.None? <==> forall i :: 0 <= i < |items| ==> accepts(d.issued[i])
    ensures d.failedAt.Some? ==>
              d.failedAt.value < |items| && !accepts(d.issued[d.failedAt.value])
  {
    var issued := WorkerCopies(items, token);
    WorkersCopyTheirRecords(items, token, issued);
    Dispatched(issued, FirstRefused(issued, accepts, 0))
  }

  /** The index of the first call at or after `from` that fails, if any. */
  function FirstRefused(calls: seq<CopyCall>, accepts: CopyCall -> bool, from: nat): (r: Option<nat>)
    requires from <= |calls|
    ensures r.None? <==> forall i :: from <= i < |calls| ==> accepts(calls[i])
    ensures r.Some? ==> from <= r.value < |calls| && !accepts(calls[r.value])
    decreases |calls| - from
  {
    if from == |calls| then None
    else if !accepts(calls[from]) then Some(from)
    else FirstRefused(calls, accepts, from + 1)
  }

  /** Whatever the pool size, the copies performed are exactly the worker records, one each. */
  lemma WorkersCoverItems(items: seq<WorkItem>, token: nat -> string, accepts: CopyCall -> bool)
    ensures multiset(Seqs.MapAppend(Origin, MapWorkers(items, token, accepts).issued)) == multiset(items)
  {
    var d := MapWorkers(items, token, accepts);
    assert Seqs.MapAppend(Origin, d.issued) == items;
  }
}
