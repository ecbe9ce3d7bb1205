/**
 * sam-demo-app/hello_world/app.py: `main` lists the source bucket, resizes the
 * listing without shuffling it, builds one worker record per entry, and maps
 * `worker` over the records.
 */
module App {
  import opened Wrappers
  import opened Types
  import Listing
  import Resample
  import Dispatch
  import Naming

  /** The dictionary `get_args` returns. */
  datatype Args = Args(srcBucket: string, destBucket: string, numFiles: int)

  /**
   * The worker records for a listing response. Entry i names the i-th listed key
   * while the listing lasts; each entry past it repeats an earlier entry of the
   * growing list.
   */
  function WorkList(args: Args, contents: seq<S3Object>, draws: nat -> nat): (r: Result<seq<Dispatch.WorkItem>, Error>)
    ensures r.Success? <==> 0 <= args.numFiles && (0 < |contents| || args.numFiles == 0)
    ensures args.numFiles < 0 ==> r == Failure(PopFromEmpty)
    ensures 0 < args.numFiles && |contents| == 0 ==> r == Failure(EmptyChoice)
    ensures r.Success? ==> |r.value| == args.numFiles
    ensures r.Success? ==> forall i :: 0 <= i < |r.value| ==>
              && r.value[i].srcBucket == args.srcBucket
              && r.value[i].destBucket == args.destBucket
              && r.value[i].filename in Listing.Keys(contents)
    ensures r.Success? ==> forall i :: 0 <= i < |r.value| && i < |contents| ==>
              r.value[i].filename == contents[i].key
    ensures r.Success? ==> forall i :: |contents| <= i < |r.value| ==> r.value[i] == r.value[draws(i) % i]
  {
    var fileListing := Listing.Project(contents);
    match Resample.Resize(fileListing, args.numFiles, draws)
    case Failure(e) => Failure(e)
    case Success(resized) =>
      var items := Dispatch.WorkerData(args.srcBucket, args.destBucket, resized);
      Resample.ResizeKeepsPrefix(fileListing, args.numFiles, draws);
      Listing.ProjectedNamesListed(contents);
      forall i | 0 <= i < |items|
        ensures items[i].filename in Listing.Keys(contents)
      {
        assert resized[i] in resized;
      }
      Success(items)
  }

  /**
   * `main(args)`: list the source bucket, then hand every worker record to a
   * worker once. The run raises if the listing or the resize does (then no copy
   * is issued) or if some copy raised.
   */
  function Main(args: Args, w: World): (r: Run)
    ensures 0 < |r.effects| && r.effects[0] == ListObjects(args.srcBucket)
    ensures r.effects[1..] == CopyEffects(Copies(r.effects))
    ensures w.storage.list(args.srcBucket).None? ==> r == Run([ListObjects(args.srcBucket)], Fail(ListingFailed))
    ensures w.storage.list(args.srcBucket).Some? ==>
              match WorkList(args, w.storage.list(args.srcBucket).value, w.random.choice)
              case Failure(e) => r == Run([ListObjects(args.srcBucket)], Fail(e))
              case Success(items) =>
                && |Copies(r.effects)| == |items|
                && (forall i :: 0 <= i < |items| ==> Dispatch.Origin(Copies(r.effects)[i]) == items[i])
                && (forall i :: 0 <= i < |items| ==>
                      Copies(r.effects)[i].destKey == w.token(i) + Naming.Extension(items[i].filename))
                && (r.outcome.Pass? <==> forall c :: c in Copies(r.effects) ==> w.storage.accepts(c))
                && (r.outcome.Fail? ==>
                      exists c :: c in Copies(r.effects) && !w.storage.accepts(c) && r.outcome == Fail(CopyFailed(c)))
  {
    var listed := [ListObjects(args.srcBucket)];
    match w.storage.list(args.srcBucket)
    case None => Run(listed, Fail(ListingFailed))
    case Some(contents) =>
      match WorkList(args, contents, w.random.choice)
      case Failure(e) => Run(listed, Fail(e))
      case Success(items) =>
        var d := Dispatch.MapWorkers(items, w.token, w.storage.accepts);
        var effects := listed + CopyEffects(d.issued);
        ListedThenCopied(args.srcBucket, d.issued);
        Dispatch.WorkerCopiesNamed(items, w.token, d.issued);
        match d.failedAt
        case None =>
          Run(effects, Pass)
        case Some(k) =>
          assert d.issued[k] in d.issued;
          Run(effects, Fail(CopyFailed(d.issued[k])))
  }
}
