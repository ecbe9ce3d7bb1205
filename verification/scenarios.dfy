/** Worked scenarios for generate_data.py's `main`, for every random draw and token. */
module Scenarios {
  import opened Wrappers
  import opened Types
  import Listing
  import Naming
  import Dispatch
  import GenerateData

  lemma ScenarioExtensions()
    ensures Naming.Extension("a.txt") == ".txt"
    ensures Naming.Extension("b.jpg") == ".jpg"
    ensures Naming.Extension("c.txt") == ".txt"
  {
    ShortNameExtension("a.txt");
    ShortNameExtension("b.jpg");
    ShortNameExtension("c.txt");
  }

  /** Neither a dot nor a path separator. */
  predicate Plain(ch: char)
  {
    ch != '.' && ch != '/'
  }

  /** A name of the form `x.abc` has extension `.abc`. */
  lemma ShortNameExtension(name: string)
    requires |name| == 5 && name[1] == '.'
    requires Plain(name[0]) && Plain(name[2]) && Plain(name[3]) && Plain(name[4])
    ensures Naming.Extension(name) == name[1..]
  {
    var stem, ext := name[..1], name[1..];
    assert ext[1..] == [name[2], name[3], name[4]];
    Naming.PlainNameSplits(stem, ext);
    assert stem + ext == name;
  }

  /**
   * Three listed objects and five requested, every copy succeeding: exactly five
   * copies, each of a listed key and each listed key at least once, each under
   * its own token followed by the key's extension.
   */
  lemma ThreeObjectsToFive(w: World, contents: seq<S3Object>)
    requires Listing.Keys(contents) == ["a.txt", "b.jpg", "c.txt"]
    requires w.storage.list("src") == Some(contents)
    requires forall c :: w.storage.accepts(c)
    ensures var copies := Copies(GenerateData.Main("src", "dest", 5, "M", w).effects);
            && GenerateData.Main("src", "dest", 5, "M", w).outcome == Pass
            && |copies| == 5
            && multiset{"a.txt", "b.jpg", "c.txt"} <= multiset(Dispatch.SourceKeys(copies))
            && forall k :: 0 <= k < 5 ==>
                 && copies[k].srcKey in {"a.txt", "b.jpg", "c.txt"}
                 && copies[k].destKey == w.token(k) + Naming.Extension(copies[k].srcKey)
                 && Naming.Extension(copies[k].srcKey) in {".txt", ".jpg"}
  {
    assert |contents| == 3;
    var planned := GenerateData.PlannedCopies("src", "dest", contents, 5, w);
    assert GenerateData.IntendedCopies("src", "dest", 5, w) == planned;
    var plan := planned.value;
    PlanOfThree(w, contents, plan);
    GenerateData.MainIssuesWholePlan("src", "dest", 5, "M", w);
  }

  lemma OneOfThree(keys: seq<string>, key: string)
    requires keys == ["a.txt", "b.jpg", "c.txt"]
    requires key in keys
    ensures key == "a.txt" || key == "b.jpg" || key == "c.txt"
  {
  }

  /** A plan of five well-formed copies out of the three-object listing. */
  lemma PlanOfThree(w: World, contents: seq<S3Object>, plan: seq<CopyCall>)
    requires Listing.Keys(contents) == ["a.txt", "b.jpg", "c.txt"]
    requires |plan| == 5
    requires forall k :: 0 <= k < 5 ==> GenerateData.CopyShaped(plan[k], "src", "dest", contents, w.token(k))
    requires multiset(Listing.Keys(contents)) <= multiset(Dispatch.SourceKeys(plan))
    ensures multiset{"a.txt", "b.jpg", "c.txt"} <= multiset(Dispatch.SourceKeys(plan))
    ensures forall k :: 0 <= k < 5 ==>
              && plan[k].srcKey in {"a.txt", "b.jpg", "c.txt"}
              && plan[k].destKey == w.token(k) + Naming.Extension(plan[k].srcKey)
              && Naming.Extension(plan[k].srcKey) in {".txt", ".jpg"}
  {
    assert multiset(Listing.Keys(contents)) == multiset{"a.txt", "b.jpg", "c.txt"};
    ScenarioExtensions();
    forall k | 0 <= k < 5
      ensures plan[k].srcKey in {"a.txt", "b.jpg", "c.txt"}
      ensures plan[k].destKey == w.token(k) + Naming.Extension(plan[k].srcKey)
      ensures Naming.Extension(plan[k].srcKey) in {".txt", ".jpg"}
    {
      var key := plan[k].srcKey;
      assert GenerateData.CopyShaped(plan[k], "src", "dest", contents, w.token(k));
      OneOfThree(Listing.Keys(contents), key);
    }
  }
}
