/**
 * Destination naming in `copy_to_bucket`: a fresh token followed by the
 * extension `os.path.splitext` (POSIX flavour) finds in the source key.
 */
module Naming {

  /** `s.rfind(c)`: the index of the last `c` in `s`, or -1 when there is none. */
  function RFind(s: string, c: char): (r: int)
    ensures -1 <= r < |s|
    ensures r == -1 <==> c !in s
    ensures 0 <= r ==> s[r] == c
    ensures forall j :: r < j < |s| ==> s[j] != c
  {
    if |s| == 0 then -1
    else if s[|s| - 1] == c then |s| - 1
    else
      var r := RFind(s[..|s| - 1], c);
      assert s == s[..|s| - 1] + [s[|s| - 1]];
      r
  }

  /**
   * `posixpath.splitext(p)`: when the last `.` comes after the last `/` and is
   * preceded, inside the final path component, by something other than dots,
   * split there; otherwise the extension is empty.
   */
  function SplitExt(p: string): (r: (string, string))
    ensures r.0 + r.1 == p
    ensures ExtensionShaped(r.1)
    ensures r.1 != [] <==> HasExtension(p)
  {
    var sepIndex := RFind(p, '/');
    var dotIndex := RFind(p, '.');
    if dotIndex > sepIndex && exists k :: sepIndex + 1 <= k < dotIndex && p[k] != '.' then
      var ext := p[dotIndex..];
      assert forall j :: 1 <= j < |ext| ==> ext[j] == p[dotIndex + j];
      var k :| sepIndex + 1 <= k < dotIndex && p[k] != '.';
      assert HasExtensionAt(p, k, dotIndex);
      assert p[..dotIndex] + ext == p;
      (p[..dotIndex], ext)
    else
      assert !HasExtension(p);
      (p, "")
  }

  /** The extension part of `splitext`. */
  function Extension(p: string): string
  {
    SplitExt(p).1
  }

  /** Empty, or a `.` followed by characters that are neither `.` nor `/`. */
  ghost predicate ExtensionShaped(ext: string)
  {
    ext == [] || (ext[0] == '.' && forall j :: 1 <= j < |ext| ==> ext[j] != '.' && ext[j] != '/')
  }

  /**
   * Position `d` holds the last `.` of `p`, and position `k < d` holds a
   * character other than `.` with no `/` from `k` on: the final path
   * component has a dot that does not merely lead it.
   */
  ghost predicate HasExtensionAt(p: string, k: int, d: int)
  {
    && 0 <= k < d < |p|
    && p[d] == '.'
    && p[k] != '.'
    && (forall j :: k <= j < |p| ==> p[j] != '/')
    && (forall j :: d < j < |p| ==> p[j] != '.')
  }

  ghost predicate HasExtension(p: string)
  {
    exists k, d :: HasExtensionAt(p, k, d)
  }

  /**
   * The `random_name` `copy_to_bucket` builds: the token, then the extension of
   * the source key, which is a suffix of that key.
   */
  function DestName(token: string, filename: string): (r: string)
    ensures |token| <= |r| && r[..|token|] == token
    ensures ExtensionShaped(r[|token|..])
    ensures |r| - |token| <= |filename| && r[|token|..] == filename[|filename| - (|r| - |token|)..]
    ensures |r| == |token| <==> !HasExtension(filename)
  {
    var (root, ext) := SplitExt(filename);
    var r := token + ext;
    assert r[|token|..] == ext;
    assert filename[|root|..] == ext;
    r
  }

  /**
   * The extension is the only suffix of `p` that is extension-shaped and is
   * non-empty exactly when `p` has an extension: so a name that is the token
   * followed by such a suffix is the token followed by `splitext(p)[1]`.
   */
  lemma ExtensionUnique(p: string, e: string)
    requires |e| <= |p| && e == p[|p| - |e|..]
    requires ExtensionShaped(e)
    requires e != [] <==> HasExtension(p)
    ensures e == Extension(p)
  {
    var x := Extension(p);
    assert SplitExt(p).0 + x == p;
    assert x == p[|p| - |x|..];
  }

  /**
   * A plain `stem.ext` key, with no `/` and a single dot that does not lead it,
   * splits at that dot.
   */
  lemma PlainNameSplits(stem: string, ext: string)
    requires 0 < |stem| && '.' !in stem && '/' !in stem
    requires 0 < |ext| && ext[0] == '.' && '.' !in ext[1..] && '/' !in ext[1..]
    ensures SplitExt(stem + ext) == (stem, ext)
  {
    var p := stem + ext;
    assert p[|stem|] == '.';
    assert forall j :: |stem| < j < |p| ==> p[j] == ext[1..][j - |stem| - 1];
    assert HasExtensionAt(p, 0, |stem|);
    assert RFind(p, '.') == |stem|;
    assert p[..|stem|] == stem && p[|stem|..] == ext;
  }

  /** A key like `.bashrc` has no extension: dots leading the name do not count. */
  lemma LeadingDotIsNotExtension()
    ensures SplitExt(".bashrc") == (".bashrc", "")
  {
    assert !HasExtension(".bashrc");
  }

  /** A trailing dot is an extension of its own. */
  lemma TrailingDotIsExtension()
    ensures SplitExt("a.") == ("a", ".")
  {
    var p := "a.";
    assert HasExtensionAt(p, 0, 1);
    assert RFind(p, '.') == 1;
    assert p[..1] == "a" && p[1..] == ".";
  }

  /** Only the last dot splits. */
  lemma LastDotSplits()
    ensures SplitExt("a.tar.gz") == ("a.tar", ".gz")
  {
    var p := "a.tar.gz";
    assert HasExtensionAt(p, 0, 5);
    assert RFind(p, '.') == 5;
    assert p[..5] == "a.tar" && p[5..] == ".gz";
  }

  /** A dot in a directory name is not an extension. */
  lemma DirectoryDotIsNotExtension()
    ensures SplitExt("dir.d/file") == ("dir.d/file", "")
  {
    assert "dir.d/file"[5] == '/';
    assert !HasExtension("dir.d/file");
  }
}
