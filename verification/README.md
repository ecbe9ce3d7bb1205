# Test-data generator: resize, copy and acknowledge

A Dafny model of the two scripts that generate test data for a storage
pipeline. Both list a source S3 bucket and reduce each object to a
`{filename, size}` descriptor. They then resize that listing to a requested
count: random picks are appended while it is too short, and entries are popped
from the end while it is too long. Finally each entry is copied into a
destination bucket under a fresh uuid token followed by the source key's
extension.

- `api-gateway/generate_data.py` shuffles the resized listing and copies one
  entry at a time. Its `lambda_handler` reads the first SQS record, decodes the
  query-string body into parameters, runs `main`, and deletes the message only
  when `main` returns.
- `sam-demo-app/hello_world/app.py` does not shuffle. It builds one worker
  record per entry and maps `worker` over the records with a process pool.

Everything the scripts consult outside themselves is a parameter (`Types.World`):

- the object store: what `list_objects` returns per bucket, and whether a given
  copy succeeds;
- the random generator, as two oracle functions of raw draws. `random.choice`
  on a list of length `i` picks index `choice(i) % i`. `random.shuffle` is
  CPython's Fisher-Yates pass: for `i` from `n - 1` down to `1`, swap `i` with
  `shuffle(i) % (i + 1)`;
- the uuid1 token of the k-th copy.

Runs are traces of effects (`ListObjects`, `CopyObject`, `DeleteMessage`) with
an outcome: returned, or the exception that escaped. Python exceptions become
`Types.Error` values: `EmptyChoice` for `random.choice([])`, `PopFromEmpty` for
`[].pop()`, `MissingKey` for a `KeyError`, `NoRecords` for `Records[0]` on an
empty list, `ListingFailed` and `CopyFailed` for the storage calls.

Modules: `Wrappers` (Option/Result/Outcome), `Types` (records, effects, errors,
world), `Seqs` (the append-per-item loop), `Listing` (`bucket_listing`),
`Resample` (resize and shuffle), `Naming` (`os.path.splitext` and the
destination name), `Dispatch` (`copy_to_bucket`, the sequential loop, worker
records and the worker map), `IntText` (`int()` on a query value),
`GenerateData` (generate_data.py's `main` and the queue handler as a state
machine `Idle → Received → Processing → Acknowledged | Aborted`), `App`
(app.py's `main`), and `Scenarios` (a worked example).

The model follows the scripts as written:

- A failed copy in generate_data.py ends the copy loop. It does not let the
  remaining copies run.
- A negative `num_files` is an error (`PopFromEmpty`). It is not clamped to zero.
- Extras are picked from the growing list, not only from the original listing.
  Since the growing list only ever holds original entries, every pick is still
  an original entry (`Resample.PicksStayInBase`).

## Model

| member | source | states |
|---|---|---|
| Listing.Project | api-gateway/generate_data.py:26-29 | one descriptor per `Contents` record, in the same order, with `filename` the record's `Key` and `size` its `Size` |
| Listing.ProjectRoundTrip | sam-demo-app/hello_world/app.py:101-104 | the projection loses nothing: the records can be rebuilt from the descriptors |
| Listing.ProjectNames | sam-demo-app/hello_world/app.py:101-104 | a name appears in the listing exactly when some record has that key |
| Listing.ProjectedNamesListed | sam-demo-app/hello_world/app.py:101-104 | every descriptor's `filename` is the key of some listed record |
| Resample.Grow | api-gateway/generate_data.py:67-69 | appending `count` picks adds exactly `count` entries and keeps the original as a prefix; the entry added at position i repeats an entry among the first i, i.e. it is drawn from the list as it had grown so far |
| Resample.PicksStayInBase | api-gateway/generate_data.py:67-69 | by induction over the appends: a list grown by picks from its own earlier part holds only elements of the part it started from |
| Resample.PopN | api-gateway/generate_data.py:71-73 | popping `count` times succeeds exactly when `count` does not exceed the length, and then leaves the first `len - count` entries; otherwise it raises the empty-pop error |
| Resample.Resize | api-gateway/generate_data.py:64-73 | succeeds iff `num_files >= 0` and the listing is non-empty or `num_files` is 0; a negative count is the pop error and an empty listing with a positive count is the empty-choice error; on success the length is exactly `num_files`, every entry comes from the listing, a shorter target gives `listing[..num_files]`, a longer one keeps the listing as prefix with every extra drawn from the growing list |
| Resample.ResizeKeepsPrefix | sam-demo-app/hello_world/app.py:137-147 | whether the list is grown or popped, entry i of the result is entry i of the listing wherever both exist |
| Resample.ShuffleFirst | api-gateway/generate_data.py:76 | the Fisher-Yates pass over the first n positions keeps the length and the multiset and leaves later positions alone |
| Resample.Shuffle | api-gateway/generate_data.py:76 | shuffling only permutes: same length, same multiset |
| Resample.ShuffleKeepsElements | api-gateway/generate_data.py:76 | an element is in the shuffled list iff it is in the list before the shuffle |
| Naming.RFind | api-gateway/generate_data.py:46 | the `rfind` used by `splitext`: -1 iff the character is absent, otherwise an index holding it with no later occurrence |
| Naming.SplitExt | api-gateway/generate_data.py:46 | `root + ext == filename`; `ext` is empty or a `.` followed by neither `.` nor `/`; `ext` is non-empty iff the final path component has a last dot preceded by a non-dot character |
| Naming.PlainNameSplits | sam-demo-app/hello_world/app.py:121 | a `stem.ext` key without `/` and with a single non-leading dot splits at that dot |
| Naming.LeadingDotIsNotExtension | sam-demo-app/hello_world/app.py:121 | `.bashrc` has an empty extension |
| Naming.TrailingDotIsExtension | sam-demo-app/hello_world/app.py:121 | `a.` has the extension `.` |
| Naming.LastDotSplits | sam-demo-app/hello_world/app.py:121 | `a.tar.gz` splits at its last dot |
| Naming.DirectoryDotIsNotExtension | sam-demo-app/hello_world/app.py:121 | a dot in a directory name is not an extension |
| Naming.DestName | api-gateway/generate_data.py:46-47 | the destination name starts with the token; the rest is extension-shaped and a suffix of the source key, and it is empty iff the key has no extension |
| Naming.ExtensionUnique | api-gateway/generate_data.py:46 | `splitext(p)[1]` is the only suffix of `p` that is empty or a dot followed by neither dots nor slashes, and that is non-empty exactly when `p` has an extension |
| Dispatch.CopyToBucket | api-gateway/generate_data.py:44-48 | one copy from the source bucket and key into the destination bucket; its name is the token followed by an extension-shaped suffix of the key, and that suffix is empty iff the key has no extension |
| Dispatch.CopyNamedTokenThenExtension | api-gateway/generate_data.py:46-47 | from the copy's contract alone: the destination name is exactly the token followed by `splitext(filename)[1]` |
| Dispatch.CopyPlan | api-gateway/generate_data.py:78-80 | the loop's copies: one per shuffled entry, in order, the k-th made by `copy_to_bucket` for the k-th entry's filename under the k-th token |
| Dispatch.RunSequential | api-gateway/generate_data.py:78-80 | copies are issued in list order; with no failure every planned copy is issued and all succeeded; on a failure at item k exactly items 0..k were issued, k failed and all before it succeeded |
| Dispatch.WorkerData | sam-demo-app/hello_world/app.py:152-160 | one worker record per resized entry, in order, carrying the two buckets and that entry's filename |
| Dispatch.Worker | sam-demo-app/hello_world/app.py:126-132 | a worker issues one copy from its record's source bucket and filename into its destination bucket, named the token followed by an extension-shaped suffix of the filename that is empty iff the filename has no extension |
| Dispatch.WorkerNamedTokenThenExtension | sam-demo-app/hello_world/app.py:121-122 | from the worker's contract alone: the copy is named the token followed by `splitext(filename)[1]` of its record |
| Dispatch.MapWorkers | sam-demo-app/hello_world/app.py:166-167 | one copy per worker record, the i-th being the copy `worker` makes for the i-th record under the i-th token; the map raises iff some copy failed, and then names a failed copy |
| Dispatch.WorkersCoverItems | sam-demo-app/hello_world/app.py:166-167 | the multiset of records the copies were made for equals the multiset of worker records |
| IntText.ParseInt | api-gateway/generate_data.py:95 | a parse succeeds iff the text is digits or a sign followed by at least one digit, at any length; digits give their decimal value, `-digits` its negation and `+digits` the value itself; empty or sign-only text fails |
| IntText.ParseShowRoundTrip | api-gateway/generate_data.py:95 | parsing the decimal text of any integer gives that integer back |
| IntText.NotANumber | api-gateway/generate_data.py:94-97 | `notanumber` does not parse |
| GenerateData.PlannedCopies | api-gateway/generate_data.py:63-80 | after resize and shuffle, the copies to issue: defined iff the resize succeeds, with the resize's two errors; exactly `num_files` copies, each from the source bucket of a listed key into the destination bucket under its token plus the key's extension; with enough listed objects the copied keys are the first `num_files` keys in some order, otherwise every listed key is copied at least once |
| GenerateData.SequentialInOrder | api-gateway/generate_data.py:78-80 | the one-by-one loop issues a prefix of the plan: the whole plan and a normal return iff every copy succeeds, otherwise up to the first copy that raised, whose error ends the run |
| GenerateData.CopyLoop | api-gateway/generate_data.py:78-80 | after the listing call only copies follow, and they are the plan's copies in order: all of them iff every copy succeeds, otherwise the plan up to and including the first failing copy, whose error is the run's outcome |
| GenerateData.Main | api-gateway/generate_data.py:62-80 | the run lists the source bucket first; if the listing or the resize raises, nothing is copied and that error is the outcome; otherwise the copies issued are the intended ones in order up to the first failure |
| GenerateData.MainIssuesWholePlan | api-gateway/generate_data.py:78-80 | when every copy succeeds, `main` returns having issued exactly the intended copies |
| GenerateData.MainCopiesListedKeys | api-gateway/generate_data.py:62-80 | a run that returns issued exactly `num_files` copies of listed keys between the two buckets; it copied the first `num_files` keys in some order when the bucket had enough, and every listed key at least once otherwise |
| GenerateData.NumFilesParam | api-gateway/generate_data.py:93-97 | `num_files` is 10 when the key is absent or its first value is not an integer, otherwise that integer |
| GenerateData.SizeParam | api-gateway/generate_data.py:99-103 | `size` is `M` when absent, otherwise the first value |
| GenerateData.DecodeRequest | api-gateway/generate_data.py:90-103 | decoding succeeds iff both `src_bucket` and `dest_bucket` are present; a missing `src_bucket` is reported before a missing `dest_bucket`; on success the buckets are the first values, `num_files` is `NumFilesParam` (the parsed first value, or 10) and `size` is `SizeParam` (the first value, or `M`) |
| GenerateData.DefaultsWhenAbsent | api-gateway/generate_data.py:93-103 | `src_bucket=a&dest_bucket=b` asks for 10 files of size `M` |
| GenerateData.DefaultWhenNotANumber | api-gateway/generate_data.py:93-97 | `num_files=notanumber` falls back to 10 |
| GenerateData.Step | api-gateway/generate_data.py:86-106 | each step moves towards the end; only the step out of `Processing` has effects; it ends in `Acknowledged` iff `main` returned, and then the delete of that receipt handle is its last effect and its only delete; no other step deletes |
| GenerateData.Advance | api-gateway/generate_data.py:86-91 | the steps before `main` issue nothing: from `Idle` the handler aborts iff there are no records, otherwise it holds `Records[0]`; from there it aborts iff the body lacks a required key, otherwise it is processing the decoded request with that record's receipt handle |
| GenerateData.Process | api-gateway/generate_data.py:105-106 | deletes the message only if `main` returned: the step ends acknowledged with that receipt handle iff `main` on the decoded request passed, and then the delete of that receipt handle is its last effect and its only delete; otherwise it aborts and deletes nothing |
| GenerateData.Drive | api-gateway/generate_data.py:86-106 | a handler run ends acknowledged or aborted; an acknowledged run deletes the message exactly once, as its last effect, with the acknowledged receipt handle; any other run never deletes |
| GenerateData.LambdaHandler | api-gateway/generate_data.py:83-106 | the handler ends acknowledged or aborted; it acknowledges only a well-formed first record, and then its last effect is the one delete of that record's receipt handle; a run that is not acknowledged deletes nothing |
| GenerateData.MalformedMessageIssuesNothing | api-gateway/generate_data.py:86-91 | with no records, or a first record missing `src_bucket` or `dest_bucket`, the handler aborts with that error before `main`: nothing listed, copied or deleted |
| GenerateData.HandlerAcknowledgesAfterMain | api-gateway/generate_data.py:105-106 | for a well-formed first record, the handler runs `main` on the decoded request; if `main` returns, everything it issued is followed by one delete of the first record's receipt handle; if it raises, the run aborts with that error and nothing is deleted |
| App.WorkList | sam-demo-app/hello_world/app.py:136-160 | the worker records are defined iff the resize succeeds, with its two errors; exactly `num_files` records, each for the two buckets and a listed key; the i-th record names the i-th listed key while the listing lasts, and each later record repeats an earlier one of the growing list |
| App.Main | sam-demo-app/hello_world/app.py:135-169 | the run lists the source bucket first; a listing or resize error means no copy; otherwise there is one copy per worker record, in record order, the i-th named the i-th token followed by its record's extension, and the run returns iff every copy succeeded |
| Scenarios.ThreeObjectsToFive | api-gateway/generate_data.py:62-80 | listing `a.txt`, `b.jpg`, `c.txt` with 5 requested and all copies succeeding gives exactly 5 copies; each copies a listed key, each key is copied at least once, and each is named its token plus `.txt` or `.jpg` |

## Left out

- The S3 and SQS clients (`list_objects`, `copy`, `delete_message`) are not modelled. A listing is an oracle answer per bucket, and a copy's success is an oracle predicate on the call. `delete_message` is an effect that always succeeds. S3's 1000-key page limit is not modelled.
- `uuid.uuid1()` is an opaque token per copy. Its uniqueness is not modelled, so the model does not show that a destination name differs from its source key.
- Randomness is an oracle of raw draws. Nothing is claimed about the distribution of `random.choice` or `random.shuffle`.
- `urllib.parse.parse_qs` is not modelled. The handler receives the parsed map, with every value list non-empty.
- IntText.ParseInt: accepts only an optional sign followed by ASCII digits. Python's `int()` also strips surrounding whitespace and accepts underscores between digits and non-ASCII digits, and the model treats those texts as not numbers. Python 3.11+ (and the 2022 security releases of 3.7-3.10) also raises ValueError for more than 4300 digits, which makes `num_files` fall back to 10; the model parses such text at any length, since no Python version is fixed.
- Dispatch.MapWorkers: takes `pool.map` sequentially and issues every record's copy even when one fails. The real pool skips the rest of a failing record's chunk, and the chunk size depends on the pool; `cpu_count` and the pool's lifecycle are not modelled.
- A `None` value of the `SQS_QUEUE_URL` environment variable is not modelled. The queue URL is a string parameter.
- An event without a `Records` key is not modelled; it raises KeyError before any effect.
- A record without `receiptHandle` or `body` is not modelled. Every record carries both.
- Logging, `print`, argparse in `get_args` and app.py's hello-world `lambda_handler` are not modelled. They have no bearing on the pipeline.
- The `size` parameter is passed to `main` and never used, and the model ignores it the same way.
