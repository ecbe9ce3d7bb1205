/** `bucket_listing`: reduce each listed object to a name-and-size descriptor. */
module Listing {
  import opened Types
  import Seqs

  /** The descriptor built for one `Contents` record. */
  function Describe(o: S3Object): FileEntry
  {
    FileEntry(o.key, o.size)
  }

  /** The object record a descriptor stands for. */
  function Undescribe(e: FileEntry): S3Object
  {
    S3Object(e.filename, e.size)
  }

  function FilenameOf(e: FileEntry): string
  {
    e.filename
  }

  /** The names of a listing, in order. */
  function Filenames(files: seq<FileEntry>): seq<string>
  {
    Seqs.MapAppend(FilenameOf, files)
  }

  function KeyOf(o: S3Object): string
  {
    o.key
  }

  /** The keys of a listing response, in order. */
  function Keys(contents: seq<S3Object>): seq<string>
  {
    Seqs.MapAppend(KeyOf, contents)
  }

  /** The listing the loop over `response["Contents"]` builds: one descriptor per record, same order. */
  function Project(contents: seq<S3Object>): (r: seq<FileEntry>)
    ensures |r| == |contents|
    ensures forall i :: 0 <= i < |contents| ==>
              r[i].filename == contents[i].key && r[i].size == contents[i].size
  {
    Seqs.MapAppend(Describe, contents)
  }

  /** Nothing is lost by the projection: the records can be rebuilt from the descriptors. */
  lemma ProjectRoundTrip(contents: seq<S3Object>)
    ensures Seqs.MapAppend(Undescribe, Project(contents)) == contents
  {
  }

  /** The descriptors carry the response's keys, in order. */
  lemma ProjectKeepsKeys(contents: seq<S3Object>)
    ensures Filenames(Project(contents)) == Keys(contents)
  {
  }

  /** Every projected entry carries a listed key. */
  lemma ProjectedNamesListed(contents: seq<S3Object>)
    ensures forall e :: e in Project(contents) ==> e.filename in Keys(contents)
  {
    var r := Project(contents);
    forall e | e in r
      ensures e.filename in Keys(contents)
    {
      var i :| 0 <= i < |r| && r[i] == e;
      assert Keys(contents)[i] == e.filename;
    }
  }

  /** A name is listed exactly when some record has that key. */
  lemma ProjectNames(contents: seq<S3Object>, name: string)
    ensures (exists e :: e in Project(contents) && e.filename == name)
        <==> (exists o :: o in contents && o.key == name)
  {
    if o :| o in contents && o.key == name {
      RecordProjected(contents, o);
    }
    if e :| e in Project(contents) && e.filename == name {
      EntryListed(contents, e);
    }
  }

  /** A record's projection is a listed entry with its key as name. */
  lemma RecordProjected(contents: seq<S3Object>, o: S3Object)
    requires o in contents
    ensures exists e :: e in Project(contents) && e.filename == o.key
  {
    var i :| 0 <= i < |contents| && contents[i] == o;
    ProjectedAt(contents, i);
  }

  /** A listed entry comes from a record whose key is its name. */
  lemma EntryListed(contents: seq<S3Object>, e: FileEntry)
    requires e in Project(contents)
    ensures exists o :: o in contents && o.key == e.filename
  {
    var r := Project(contents);
    var i :| 0 <= i < |r| && r[i] == e;
    ListedAt(contents, i);
  }

  /** The i-th projected entry witnesses the i-th record's key. */
  lemma ProjectedAt(contents: seq<S3Object>, i: nat)
    requires i < |contents|
    ensures Project(contents)[i] in Project(contents)
    ensures Project(contents)[i].filename == contents[i].key
  {
  }

  /** The i-th record witnesses the i-th projected entry's name. */
  lemma ListedAt(contents: seq<S3Object>, i: nat)
    requires i < |contents|
    ensures contents[i] in contents
    ensures contents[i].key == Project(contents)[i].filename
  {
  }
}
