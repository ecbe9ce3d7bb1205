/**
 * The records both scripts pass around, the exceptions they can raise, the
 * externally visible actions they perform, and the outside world (object store,
 * random generator, uuid source) they consult.
 */
module Types {
  import opened Wrappers

  /** One `Contents` record of an S3 `list_objects` response. */
  datatype S3Object = S3Object(key: string, size: nat)

  /** The `{"filename": ..., "size": ...}` descriptor `bucket_listing` builds. */
  datatype FileEntry = FileEntry(filename: string, size: nat)

  /** The arguments of one `s3.copy(copy_source, dest_bucket, random_name)` call. */
  datatype CopyCall = CopyCall(srcBucket: string, srcKey: string, destBucket: string, destKey: string)

  /** An externally visible action, in the order it is issued. */
  datatype Effect =
    | ListObjects(bucket: string)
    | CopyObject(call: CopyCall)
    | DeleteMessage(queueUrl: string, receiptHandle: string)

  /** The exceptions that can escape the pipelines and the queue handler. */
  datatype Error =
    | ListingFailed            // `list_objects` raised, or the response has no `Contents`
    | EmptyChoice              // `random.choice` on an empty list (IndexError)
    | PopFromEmpty             // `list.pop()` on an empty list (IndexError)
    | CopyFailed(call: CopyCall) // `s3.copy` raised for this call
    | NoRecords                // `event["Records"][0]` on an empty record list (IndexError)
    | MissingKey(key: string)  // `params[key]` for an absent query key (KeyError)

  /**
   * The object store as the scripts see it: what `list_objects` returns for a
   * bucket (None when the call raises or the response has no `Contents`), and
   * whether a given copy succeeds.
   */
  datatype Storage = Storage(list: string -> Option<seq<S3Object>>, accepts: CopyCall -> bool)

  /**
   * The random generator as an oracle: `choice(i)` is the raw draw used when the
   * growing list has length `i`, `shuffle(i)` the raw draw used for position `i`
   * of the shuffle. Each is reduced into range the way `_randbelow(n)` is bounded.
   */
  datatype Random = Random(choice: nat -> nat, shuffle: nat -> nat)

  /** Everything the scripts consult outside themselves; `token(k)` is the hex uuid1 of the k-th copy. */
  datatype World = World(storage: Storage, random: Random, token: nat -> string)

  /** The visible trace of one run: what was issued, and whether it returned or raised. */
  datatype Run = Run(effects: seq<Effect>, outcome: Outcome<Error>)

  /** The copy effects of a sequence of calls, in the same order. */
  function CopyEffects(calls: seq<CopyCall>): (r: seq<Effect>)
    ensures |r| == |calls|
    ensures forall i :: 0 <= i < |calls| ==> r[i] == CopyObject(calls[i])
  {
    seq(|calls|, i requires 0 <= i < |calls| => CopyObject(calls[i]))
  }

  /** The object-store copies in a trace, in issue order. */
  function Copies(effects: seq<Effect>): (r: seq<CopyCall>)
    ensures |r| <= |effects|
    ensures forall c :: c in r <==> CopyObject(c) in effects
  {
    if effects == [] then []
    else
      var rest := Copies(effects[1..]);
      assert effects == [effects[0]] + effects[1..];
      if effects[0].CopyObject? then [effects[0].call] + rest else rest
  }

  lemma {:induction false} CopiesAppend(a: seq<Effect>, b: seq<Effect>)
    ensures Copies(a + b) == Copies(a) + Copies(b)
    decreases |a|
  {
    if a == [] {
      assert a + b == b;
    } else {
      assert (a + b)[0] == a[0];
      assert (a + b)[1..] == a[1..] + b;
      CopiesAppend(a[1..], b);
      assert a + b != [];
    }
  }

  /** Reading the copies back out of their effects gives the calls. */
  lemma {:induction false} CopiesOfCopyEffects(calls: seq<CopyCall>)
    ensures Copies(CopyEffects(calls)) == calls
    decreases |calls|
  {
    if calls != [] {
      assert CopyEffects(calls)[1..] == CopyEffects(calls[1..]);
      CopiesOfCopyEffects(calls[1..]);
    }
  }

  /** A listing call followed by copies: the copies read back are exactly those calls. */
  lemma ListedThenCopied(bucket: string, calls: seq<CopyCall>)
    ensures Copies([ListObjects(bucket)] + CopyEffects(calls)) == calls
  {
    var listed := [ListObjects(bucket)];
    assert Copies(listed[1..]) == [];
    assert Copies(listed) == [];
    CopiesAppend(listed, CopyEffects(calls));
    CopiesOfCopyEffects(calls);
  }
}
