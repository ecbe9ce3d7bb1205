/**
 * api-gateway/generate_data.py: `main` (list, resize, shuffle, copy one by one)
 * and `lambda_handler`, which turns one queued message into a `main` call and
 * deletes the message only when `main` returns.
 */
module GenerateData {
  import opened Wrappers
  import opened Types
  import Seqs
  import Listing
  import Resample
  import Naming
  import Dispatch
  import IntText

  /**
   * A copy out of `srcBucket` of a listed key, into `destBucket` under `token`
   * followed by an extension.
   */
  ghost predicate CopyShaped(c: CopyCall, srcBucket: string, destBucket: string, contents: seq<S3Object>, token: string)
  {
    && c.srcBucket == srcBucket
    && c.destBucket == destBucket
    && c.srcKey in Listing.Keys(contents)
    && c.destKey == token + Naming.Extension(c.srcKey)
    // The three conjuncts below follow from the one above and the contract of
    // SplitExt; they are spelled out so that users need not re-derive them.
    && |token| <= |c.destKey|
    && c.destKey[..|token|] == token
    && Naming.ExtensionShaped(c.destKey[|token|..])
  }

  /**
   * The copies `main` sets out to issue for a listing response: one per entry
   * of the resized and shuffled listing, the k-th under the k-th token.
   */
  function PlannedCopies(srcBucket: string, destBucket: string, contents: seq<S3Object>, numFiles: int, w: World)
    : (r: Result<seq<CopyCall>, Error>)
    ensures r.Success? <==> 0 <= numFiles && (0 < |contents| || numFiles == 0)
    ensures numFiles < 0 ==> r == Failure(PopFromEmpty)
    ensures 0 < numFiles && |contents| == 0 ==> r == Failure(EmptyChoice)
    ensures r.Success? ==> |r.value| == numFiles
    ensures r.Success? ==> forall k :: 0 <= k < |r.value| ==>
              CopyShaped(r.value[k], srcBucket, destBucket, contents, w.token(k))
    ensures r.Success? && numFiles <= |contents| ==>
              multiset(Dispatch.SourceKeys(r.value)) == multiset(Listing.Keys(contents[..numFiles]))
    ensures r.Success? && |contents| <= numFiles ==>
              multiset(Listing.Keys(contents)) <= multiset(Dispatch.SourceKeys(r.value))
  {
    var fileListing := Listing.Project(contents);
    match Resample.Resize(fileListing, numFiles, w.random.choice)
    case Failure(e) => Failure(e)
    case Success(resized) =>
      var shuffled := Resample.Shuffle(resized, w.random.shuffle);
      var plan := Dispatch.CopyPlan(srcBucket, destBucket, shuffled, w.token);
      PlanFacts(srcBucket, destBucket, contents, numFiles, w, resized);
      Success(plan)
  }

  /** What the plan for a successfully resized listing looks like. */
  lemma PlanFacts(srcBucket: string, destBucket: string, contents: seq<S3Object>, numFiles: int, w: World,
                  resized: seq<FileEntry>)
    requires Resample.Resize(Listing.Project(contents), numFiles, w.random.choice) == Success(resized)
    ensures var plan := Dispatch.CopyPlan(srcBucket, destBucket, Resample.Shuffle(resized, w.random.shuffle), w.token);
            && |plan| == numFiles
            && (forall k :: 0 <= k < |plan| ==> CopyShaped(plan[k], srcBucket, destBucket, contents, w.token(k)))
            && (numFiles <= |contents| ==>
                  multiset(Dispatch.SourceKeys(plan)) == multiset(Listing.Keys(contents[..numFiles])))
            && (|contents| <= numFiles ==>
                  multiset(Listing.Keys(contents)) <= multiset(Dispatch.SourceKeys(plan)))
  {
    var shuffled := Resample.Shuffle(resized, w.random.shuffle);
    var plan := Dispatch.CopyPlan(srcBucket, destBucket, shuffled, w.token);
    assert |plan| == numFiles;
    ResizedNamesListed(contents, numFiles, w.random.choice, resized);
    Resample.ShuffleKeepsElements(resized, w.random.shuffle);
    forall k | 0 <= k < |plan|
      ensures CopyShaped(plan[k], srcBucket, destBucket, contents, w.token(k))
    {
      assert shuffled[k] in shuffled;
      assert plan[k] == Dispatch.CopyToBucket(srcBucket, destBucket, shuffled[k].filename, w.token(k));
    }
    PlanKeys(srcBucket, destBucket, shuffled, w.token);
    ShuffledNames(resized, w.random.shuffle);
    assert multiset(Dispatch.SourceKeys(plan)) == multiset(Listing.Filenames(resized));
    ResizedNames(contents, numFiles, w.random.choice, resized);
  }

  /** The names in a resized listing are names the bucket listed. */
  lemma ResizedNamesListed(contents: seq<S3Object>, numFiles: int, draws: nat -> nat, resized: seq<FileEntry>)
    requires Resample.Resize(Listing.Project(contents), numFiles, draws) == Success(resized)
    ensures forall e :: e in resized ==> e.filename in Listing.Keys(contents)
  {
    var fileListing := Listing.Project(contents);
    assert Seqs.DrawnFrom(resized, fileListing);
    Listing.ProjectedNamesListed(contents);
  }

  /** Truncation keeps the first `numFiles` names; growth keeps every listed name at least once. */
  lemma ResizedNames(contents: seq<S3Object>, numFiles: int, draws: nat -> nat, resized: seq<FileEntry>)
    requires Resample.Resize(Listing.Project(contents), numFiles, draws) == Success(resized)
    ensures numFiles <= |contents| ==> Listing.Filenames(resized) == Listing.Keys(contents[..numFiles])
    ensures |contents| <= numFiles ==>
              multiset(Listing.Keys(contents)) <= multiset(Listing.Filenames(resized))
  {
    var fileListing := Listing.Project(contents);
    Listing.ProjectKeepsKeys(contents);
    if numFiles <= |contents| {
      Seqs.MapAppendPrefix(Listing.FilenameOf, fileListing, numFiles);
      Seqs.MapAppendPrefix(Listing.KeyOf, contents, numFiles);
    }
    if |contents| <= numFiles {
      assert resized == fileListing + resized[|fileListing|..];
      Seqs.MapAppendConcat(Listing.FilenameOf, fileListing, resized[|fileListing|..]);
    }
  }

  /** Shuffling the resized listing does not change the multiset of its names. */
  lemma ShuffledNames(resized: seq<FileEntry>, draws: nat -> nat)
    ensures multiset(Listing.Filenames(Resample.Shuffle(resized, draws))) == multiset(Listing.Filenames(resized))
  {
    Resample.ShuffleCommutesWithMap(Listing.FilenameOf, resized, |resized|, draws);
  }

  /** The copies of a plan read their source keys from the planned entries, in order. */
  lemma PlanKeys(srcBucket: string, destBucket: string, files: seq<FileEntry>, token: nat -> string)
    ensures Dispatch.SourceKeys(Dispatch.CopyPlan(srcBucket, destBucket, files, token)) == Listing.Filenames(files)
  {
    var plan := Dispatch.CopyPlan(srcBucket, destBucket, files, token);
    assert forall i :: 0 <= i < |files| ==> Dispatch.SourceKeys(plan)[i] == plan[i].srcKey == files[i].filename;
  }

  /** Every copy `main` would issue for `srcBucket`, or the exception raised before the first copy. */
  function IntendedCopies(srcBucket: string, destBucket: string, numFiles: int, w: World): Result<seq<CopyCall>, Error>
  {
    match w.storage.list(srcBucket)
    case None => Failure(ListingFailed)
    case Some(contents) => PlannedCopies(srcBucket, destBucket, contents, numFiles, w)
  }

  /**
   * The copies a run issued are the plan's, in order: all of them when the run
   * returned, otherwise those up to and including the first that raised.
   */
  ghost predicate IssuedInOrder(issued: seq<CopyCall>, outcome: Outcome<Error>, plan: seq<CopyCall>,
                                accepts: CopyCall -> bool)
  {
    && issued <= plan
    && (outcome.Pass? <==> forall c :: c in plan ==> accepts(c))
    && (outcome.Pass? ==> issued == plan)
    && (outcome.Fail? ==>
          && 0 < |issued|
          && outcome == Fail(CopyFailed(issued[|issued| - 1]))
          && !accepts(issued[|issued| - 1])
          && forall i :: 0 <= i < |issued| - 1 ==> accepts(issued[i]))
  }

  /** The outcome of the loop: the first copy that raised, if any. */
  function LoopOutcome(plan: seq<CopyCall>, d: Dispatch.Dispatched): Outcome<Error>
    requires d.failedAt.Some? ==> d.failedAt.value < |plan|
  {
    match d.failedAt
    case None => Pass
    case Some(k) => Fail(CopyFailed(plan[k]))
  }

  /** The sequential loop issues the plan in order and stops at the first refusal. */
  lemma SequentialInOrder(plan: seq<CopyCall>, accepts: CopyCall -> bool)
    ensures var d := Dispatch.RunSequential(plan, accepts);
            IssuedInOrder(d.issued, LoopOutcome(plan, d), plan, accepts)
  {
    var d := Dispatch.RunSequential(plan, accepts);
    match d.failedAt
    case None =>
      assert forall c :: c in plan ==> accepts(c);
    case Some(k) =>
      assert plan[k] in plan;
      assert d.issued[|d.issued| - 1] == plan[k];
  }

  /** The sequential copy loop over a plan, after the listing call. */
  function CopyLoop(srcBucket: string, plan: seq<CopyCall>, accepts: CopyCall -> bool): (r: Run)
    ensures r.effects == [ListObjects(srcBucket)] + CopyEffects(Copies(r.effects))
    ensures IssuedInOrder(Copies(r.effects), r.outcome, plan, accepts)
  {
    var d := Dispatch.RunSequential(plan, accepts);
    ListedThenCopied(srcBucket, d.issued);
    SequentialInOrder(plan, accepts);
    Run([ListObjects(srcBucket)] + CopyEffects(d.issued), LoopOutcome(plan, d))
  }

  /**
   * `main(src_bucket, dest_bucket, num_files, size)`: list the source bucket,
   * then issue the intended copies in order until one raises. `size` is unused.
   * An exception raised before the loop means no copy at all.
   */
  function Main(srcBucket: string, destBucket: string, numFiles: int, size: string, w: World): (r: Run)
    ensures 0 < |r.effects| && r.effects[0] == ListObjects(srcBucket)
    ensures r.effects[1..] == CopyEffects(Copies(r.effects))
    ensures match IntendedCopies(srcBucket, destBucket, numFiles, w)
            case Failure(e) => r == Run([ListObjects(srcBucket)], Fail(e))
            case Success(plan) => IssuedInOrder(Copies(r.effects), r.outcome, plan, w.storage.accepts)
  {
    match IntendedCopies(srcBucket, destBucket, numFiles, w)
    case Failure(e) => Run([ListObjects(srcBucket)], Fail(e))
    case Success(plan) => CopyLoop(srcBucket, plan, w.storage.accepts)
  }

  /** When every copy succeeds, `main` returns having issued exactly the intended copies. */
  lemma MainIssuesWholePlan(srcBucket: string, destBucket: string, numFiles: int, size: string, w: World)
    requires IntendedCopies(srcBucket, destBucket, numFiles, w).Success?
    requires forall c :: c in IntendedCopies(srcBucket, destBucket, numFiles, w).value ==> w.storage.accepts(c)
    ensures Main(srcBucket, destBucket, numFiles, size, w).outcome == Pass
    ensures Copies(Main(srcBucket, destBucket, numFiles, size, w).effects)
         == IntendedCopies(srcBucket, destBucket, numFiles, w).value
  {
  }

  /**
   * A run of `main` that returns copied exactly `numFiles` listed keys: the first
   * `numFiles` listed keys, in some order, when the bucket had enough; every
   * listed key at least once otherwise.
   */
  lemma MainCopiesListedKeys(srcBucket: string, destBucket: string, numFiles: int, size: string, w: World,
                             contents: seq<S3Object>)
    requires w.storage.list(srcBucket) == Some(contents)
    requires Main(srcBucket, destBucket, numFiles, size, w).outcome.Pass?
    ensures var copies := Copies(Main(srcBucket, destBucket, numFiles, size, w).effects);
            && |copies| == numFiles
            && (forall c :: c in copies ==> c.srcBucket == srcBucket && c.destBucket == destBucket)
            && (forall c :: c in copies ==> c.srcKey in Listing.Keys(contents))
            && (numFiles <= |contents| ==>
                  multiset(Dispatch.SourceKeys(copies)) == multiset(Listing.Keys(contents[..numFiles])))
            && (|contents| <= numFiles ==>
                  multiset(Listing.Keys(contents)) <= multiset(Dispatch.SourceKeys(copies)))
  {
    var plan := ReturningRunIssuesPlan(srcBucket, destBucket, numFiles, size, w, contents);
    PlannedKeys(srcBucket, destBucket, contents, numFiles, w, plan);
  }

  /** A run of `main` that returns issued the whole plan for the listing. */
  lemma ReturningRunIssuesPlan(srcBucket: string, destBucket: string, numFiles: int, size: string, w: World,
                               contents: seq<S3Object>) returns (plan: seq<CopyCall>)
    requires w.storage.list(srcBucket) == Some(contents)
    requires Main(srcBucket, destBucket, numFiles, size, w).outcome.Pass?
    ensures PlannedCopies(srcBucket, destBucket, contents, numFiles, w) == Success(plan)
    ensures Copies(Main(srcBucket, destBucket, numFiles, size, w).effects) == plan
  {
    var r := Main(srcBucket, destBucket, numFiles, size, w);
    var intended := IntendedCopies(srcBucket, destBucket, numFiles, w);
    assert intended == PlannedCopies(srcBucket, destBucket, contents, numFiles, w);
    plan := intended.value;
    assert IssuedInOrder(Copies(r.effects), r.outcome, plan, w.storage.accepts);
  }

  /** The source side of a successful plan, as `MainCopiesListedKeys` states it. */
  lemma PlannedKeys(srcBucket: string, destBucket: string, contents: seq<S3Object>, numFiles: int, w: World,
                    plan: seq<CopyCall>)
    requires PlannedCopies(srcBucket, destBucket, contents, numFiles, w) == Success(plan)
    ensures |plan| == numFiles
    ensures forall c :: c in plan ==> c.srcBucket == srcBucket && c.destBucket == destBucket
    ensures forall c :: c in plan ==> c.srcKey in Listing.Keys(contents)
    ensures numFiles <= |contents| ==>
              multiset(Dispatch.SourceKeys(plan)) == multiset(Listing.Keys(contents[..numFiles]))
    ensures |contents| <= numFiles ==>
              multiset(Listing.Keys(contents)) <= multiset(Dispatch.SourceKeys(plan))
  {
    ShapedCopiesListed(plan, srcBucket, destBucket, contents, w.token);
  }

  /** Copies shaped after a listing copy between the two buckets, and read listed keys. */
  lemma ShapedCopiesListed(plan: seq<CopyCall>, srcBucket: string, destBucket: string, contents: seq<S3Object>,
                           token: nat -> string)
    requires forall k :: 0 <= k < |plan| ==> CopyShaped(plan[k], srcBucket, destBucket, contents, token(k))
    ensures forall c :: c in plan ==> c.srcBucket == srcBucket && c.destBucket == destBucket
    ensures forall c :: c in plan ==> c.srcKey in Listing.Keys(contents)
  {
    forall c | c in plan
      ensures c.srcBucket == srcBucket && c.destBucket == destBucket && c.srcKey in Listing.Keys(contents)
    {
      var k :| 0 <= k < |plan| && plan[k] == c;
      assert CopyShaped(plan[k], srcBucket, destBucket, contents, token(k));
    }
  }

  /** One value list of a parsed query string: `parse_qs` never yields an empty one. */
  type Values = s: seq<string> | 0 < |s| witness [""]

  /** The body of a message after `urllib.parse.parse_qs`. */
  type Query = map<string, Values>

  /** One SQS record as the handler reads it: its receipt handle and its parsed body. */
  datatype Message = Message(receiptHandle: string, params: Query)

  datatype Event = Event(records: seq<Message>)

  /** The arguments the handler passes to `main`. */
  datatype WorkRequest = WorkRequest(srcBucket: string, destBucket: string, numFiles: int, size: string)

  const DefaultNumFiles: int := 10
  const DefaultSize: string := "M"

  /** `params.get(key)[0]`: None where the lookup raises (the key is absent). */
  function FirstValue(q: Query, key: string): Option<string>
  {
    if key in q then Some(q[key][0]) else None
  }

  /** `num_files`: `int` of its first value; 10 when the key is absent or that raises. */
  function NumFilesParam(q: Query): (n: int)
    ensures "num_files" !in q ==> n == DefaultNumFiles
    ensures "num_files" in q && IntText.ParseInt(q["num_files"][0]).None? ==> n == DefaultNumFiles
    ensures "num_files" in q && IntText.ParseInt(q["num_files"][0]).Some? ==>
              n == IntText.ParseInt(q["num_files"][0]).value
  {
    match FirstValue(q, "num_files")
    case None => DefaultNumFiles
    case Some(text) => IntText.ParseInt(text).GetOr(DefaultNumFiles)
  }

  /** `size`: its first value; "M" when the key is absent. */
  function SizeParam(q: Query): (s: string)
    ensures "size" !in q ==> s == DefaultSize
    ensures "size" in q ==> s == q["size"][0]
  {
    FirstValue(q, "size").GetOr(DefaultSize)
  }

  /**
   * Extract the work request: `src_bucket` then `dest_bucket` are looked up
   * without a default and raise KeyError when absent; the optional ones default.
   */
  function DecodeRequest(q: Query): (r: Result<WorkRequest, Error>)
    ensures r.Success? <==> "src_bucket" in q && "dest_bucket" in q
    ensures "src_bucket" !in q ==> r == Failure(MissingKey("src_bucket"))
    ensures "src_bucket" in q && "dest_bucket" !in q ==> r == Failure(MissingKey("dest_bucket"))
    ensures r.Success? ==>
              && r.value.srcBucket == q["src_bucket"][0]
              && r.value.destBucket == q["dest_bucket"][0]
              && r.value.numFiles == NumFilesParam(q)
              && r.value.size == SizeParam(q)
  {
    match FirstValue(q, "src_bucket")
    case None => Failure(MissingKey("src_bucket"))
    case Some(src) =>
      match FirstValue(q, "dest_bucket")
      case None => Failure(MissingKey("dest_bucket"))
      case Some(dest) => Success(WorkRequest(src, dest, NumFilesParam(q), SizeParam(q)))
  }

  /** A body of `src_bucket=a&dest_bucket=b` asks for the default ten files of size M. */
  lemma DefaultsWhenAbsent()
    ensures DecodeRequest(map["src_bucket" := ["a"], "dest_bucket" := ["b"]])
         == Success(WorkRequest("a", "b", 10, "M"))
  {
  }

  /** A `num_files` that is not a number falls back to ten. */
  lemma DefaultWhenNotANumber()
    ensures DecodeRequest(map["src_bucket" := ["a"], "dest_bucket" := ["b"], "num_files" := ["notanumber"]])
         == Success(WorkRequest("a", "b", 10, "M"))
  {
    IntText.NotANumber();
  }

  /** The handler's progress: receive, decode, run `main`, acknowledge. */
  datatype Phase =
    | Idle
    | Received(message: Message)
    | Processing(request: WorkRequest, receiptHandle: string)
    | Acknowledged(receiptHandle: string)
    | Aborted(error: Error)

  predicate Terminal(p: Phase)
  {
    p.Acknowledged? || p.Aborted?
  }

  /** Steps left before the handler ends. */
  function Remaining(p: Phase): nat
  {
    match p
    case Idle => 3
    case Received(_) => 2
    case Processing(_, _) => 1
    case _ => 0
  }

  predicate NoDelete(effects: seq<Effect>)
  {
    forall i :: 0 <= i < |effects| ==> !effects[i].DeleteMessage?
  }

  /** A listing call followed only by copies deletes no message. */
  lemma ListAndCopyNeverDeletes(effects: seq<Effect>)
    requires 0 < |effects| && effects[0].ListObjects?
    requires effects[1..] == CopyEffects(Copies(effects))
    ensures NoDelete(effects)
  {
    forall i | 1 <= i < |effects|
      ensures effects[i].CopyObject?
    {
      assert effects[i] == effects[1..][i - 1];
    }
  }

  /**
   * Effects that end in `final`: an acknowledged end deletes its message exactly
   * once, as the last effect; any other end deletes nothing.
   */
  ghost predicate DeletesOnlyOnAck(final: Phase, effects: seq<Effect>, queueUrl: string)
  {
    && (final.Acknowledged? ==>
          && 0 < |effects|
          && effects[|effects| - 1] == DeleteMessage(queueUrl, final.receiptHandle)
          && NoDelete(effects[..|effects| - 1]))
    && (!final.Acknowledged? ==> NoDelete(effects))
  }

  /** One transition, and the effects it issues. */
  datatype Transition = Transition(next: Phase, effects: seq<Effect>)

  /**
   * One step of `lambda_handler`. Only the step out of `Processing` touches
   * storage, and only its successful outcome deletes the message.
   */
  function Step(p: Phase, event: Event, w: World, queueUrl: string): (t: Transition)
    requires !Terminal(p)
    ensures Remaining(t.next) < Remaining(p)
    ensures !p.Processing? ==> t.effects == []
    ensures t.next.Acknowledged? <==>
              p.Processing? && Main(p.request.srcBucket, p.request.destBucket, p.request.numFiles, p.request.size, w).outcome.Pass?
    ensures t.next.Acknowledged? ==> t.next.receiptHandle == p.receiptHandle
    ensures DeletesOnlyOnAck(t.next, t.effects, queueUrl)
  {
    if p.Processing? then Process(p.request, p.receiptHandle, w, queueUrl)
    else Advance(p, event)
  }

  /**
   * The steps before `main` runs: take `Records[0]`, then decode its body.
   * Either fails with the error the source raises; neither issues anything.
   */
  function Advance(p: Phase, event: Event): (t: Transition)
    requires p.Idle? || p.Received?
    ensures t.effects == []
    ensures p.Idle? ==> (t.next.Aborted? <==> |event.records| == 0)
    ensures p.Idle? && 0 < |event.records| ==> t.next == Received(event.records[0])
    ensures p.Received? ==> (t.next.Aborted? <==> DecodeRequest(p.message.params).Failure?)
    ensures p.Received? && DecodeRequest(p.message.params).Success? ==>
              t.next == Processing(DecodeRequest(p.message.params).value, p.message.receiptHandle)
  {
    match p
    case Idle =>
      if |event.records| == 0 then Transition(Aborted(NoRecords), [])
      else Transition(Received(event.records[0]), [])
    case Received(message) =>
      match DecodeRequest(message.params)
      case Failure(e) => Transition(Aborted(e), [])
      case Success(request) => Transition(Processing(request, message.receiptHandle), [])
  }

  /**
   * The step out of `Processing`: run `main`, then delete the message only if
   * `main` returned.
   */
  function Process(request: WorkRequest, receiptHandle: string, w: World, queueUrl: string): (t: Transition)
    ensures t.next == Acknowledged(receiptHandle) || t.next.Aborted?
    ensures t.next.Acknowledged? <==>
              Main(request.srcBucket, request.destBucket, request.numFiles, request.size, w).outcome.Pass?
    ensures DeletesOnlyOnAck(t.next, t.effects, queueUrl)
  {
    var run := Main(request.srcBucket, request.destBucket, request.numFiles, request.size, w);
    ListAndCopyNeverDeletes(run.effects);
    match run.outcome
    case Pass =>
      var effects := run.effects + [DeleteMessage(queueUrl, receiptHandle)];
      assert effects[..|effects| - 1] == run.effects;
      Transition(Acknowledged(receiptHandle), effects)
    case Fail(e) => Transition(Aborted(e), run.effects)
  }

  /** The end state of a handler run and everything it issued. */
  datatype HandlerRun = HandlerRun(final: Phase, effects: seq<Effect>)

  /**
   * Run the handler from `p` to the end. The message is deleted at most once,
   * as the very last action, and only when the run ends acknowledged.
   */
  function Drive(p: Phase, event: Event, w: World, queueUrl: string): (r: HandlerRun)
    requires !Terminal(p)
    ensures Terminal(r.final)
    ensures DeletesOnlyOnAck(r.final, r.effects, queueUrl)
    decreases Remaining(p)
  {
    var t := Step(p, event, w, queueUrl);
    if Terminal(t.next) then HandlerRun(t.next, t.effects)
    else
      var rest := Drive(t.next, event, w, queueUrl);
      assert t.effects == [];
      HandlerRun(rest.final, rest.effects)
  }

  /** `lambda_handler(event, context)` with the queue URL taken from the environment. */
  function LambdaHandler(event: Event, w: World, queueUrl: string): (r: HandlerRun)
    ensures Terminal(r.final)
    ensures r.final.Acknowledged? ==>
              && 0 < |event.records|
              && DecodeRequest(event.records[0].params).Success?
              && 0 < |r.effects|
              && r.effects[|r.effects| - 1] == DeleteMessage(queueUrl, event.records[0].receiptHandle)
              && NoDelete(r.effects[..|r.effects| - 1])
    ensures !r.final.Acknowledged? ==> NoDelete(r.effects)
  {
    DriveProcessesFirstRecord(event, w, queueUrl);
    Drive(Idle, event, w, queueUrl)
  }

  /**
   * From `Idle`, a well-formed first record leads through `Received` and
   * `Processing` without effects, so the run is exactly the `Processing` step.
   */
  lemma DriveProcessesFirstRecord(event: Event, w: World, queueUrl: string)
    ensures 0 < |event.records| && DecodeRequest(event.records[0].params).Success? ==>
              var message := event.records[0];
              var t := Process(DecodeRequest(message.params).value, message.receiptHandle, w, queueUrl);
              Drive(Idle, event, w, queueUrl) == HandlerRun(t.next, t.effects)
  {
    if 0 < |event.records| && DecodeRequest(event.records[0].params).Success? {
      var message := event.records[0];
      var processing := Processing(DecodeRequest(message.params).value, message.receiptHandle);
      assert Step(Idle, event, w, queueUrl) == Transition(Received(message), []);
      assert Step(Received(message), event, w, queueUrl) == Transition(processing, []);
      var t := Step(processing, event, w, queueUrl);
      assert Drive(processing, event, w, queueUrl) == HandlerRun(t.next, t.effects);
      assert Drive(Received(message), event, w, queueUrl) == HandlerRun(t.next, t.effects);
    }
  }

  /**
   * A message with no records, or one missing `src_bucket` or `dest_bucket`,
   * ends the handler before `main` runs: nothing is listed, copied or deleted.
   */
  lemma MalformedMessageIssuesNothing(event: Event, w: World, queueUrl: string)
    requires |event.records| == 0 || DecodeRequest(event.records[0].params).Failure?
    ensures LambdaHandler(event, w, queueUrl).effects == []
    ensures LambdaHandler(event, w, queueUrl).final ==
              Aborted(if |event.records| == 0 then NoRecords else DecodeRequest(event.records[0].params).error)
  {
  }

  /**
   * For a well-formed first record, the handler runs `main` on the decoded
   * request; the message is deleted, with the first record's receipt handle,
   * exactly when `main` returns normally, and after everything `main` issued.
   */
  lemma HandlerAcknowledgesAfterMain(event: Event, w: World, queueUrl: string)
    requires 0 < |event.records|
    requires DecodeRequest(event.records[0].params).Success?
    ensures var request := DecodeRequest(event.records[0].params).value;
            var run := Main(request.srcBucket, request.destBucket, request.numFiles, request.size, w);
            var r := LambdaHandler(event, w, queueUrl);
            var handle := event.records[0].receiptHandle;
            && (run.outcome.Pass? ==>
                  r == HandlerRun(Acknowledged(handle), run.effects + [DeleteMessage(queueUrl, handle)]))
            && (run.outcome.Fail? ==> r == HandlerRun(Aborted(run.outcome.error), run.effects))
  {
    DriveProcessesFirstRecord(event, w, queueUrl);
  }
}
