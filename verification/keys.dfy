/**
 * Object keys of generated thumbnails: the suffix that marks them, the test
 * that recognises them and the derivation of a thumbnail key from the key of
 * the uploaded image (`new_filename` in handler.py).
 */
module ThumbnailKeys {
  import opened Wrappers

  /** The marker every generated thumbnail key ends with. */
  const ThumbnailSuffix: string := "_thumbnail.png"

  /** Python's `s.endswith(suffix)`. */
  predicate EndsWith(s: string, suffix: string) {
    |suffix| <= |s| && s[|s| - |suffix|..] == suffix
  }

  /** The key of an object the handler itself generated, hence skipped. */
  predicate IsThumbnailKey(key: string) {
    EndsWith(key, ThumbnailSuffix)
  }

  /** Position of the last occurrence of `c` in `s`, if any. */
  function LastIndexOf(s: string, c: char): (r: Option<nat>)
    ensures r.None? <==> c !in s
    ensures r.Some? ==> r.value < |s| && s[r.value] == c
    ensures r.Some? ==> forall j :: r.value < j < |s| ==> s[j] != c
  {
    if |s| == 0 then None
    else if s[|s| - 1] == c then Some(|s| - 1)
    else LastIndexOf(s[..|s| - 1], c)
  }

  /**
   * Python's `s.rsplit(sep, 1)` for a one-character separator: the whole
   * string when `sep` does not occur, otherwise the parts before and after
   * its last occurrence.
   */
  function RSplitOnce(s: string, sep: char): (parts: seq<string>)
    ensures |parts| == 1 || |parts| == 2
    ensures |parts| == 1 <==> sep !in s
    ensures |parts| == 1 ==> parts[0] == s
    ensures |parts| == 2 ==> parts[0] + [sep] + parts[1] == s && sep !in parts[1]
  {
    match LastIndexOf(s, sep)
    case None => [s]
    case Some(i) =>
      assert s[..i] + [sep] + s[i + 1..] == s;
      [s[..i], s[i + 1..]]
  }

  /** The key under which the thumbnail of the object at `key` is stored. */
  function NewFilename(key: string): (r: string)
    ensures IsThumbnailKey(r)
    ensures |r| <= |key| + |ThumbnailSuffix|
  {
    RSplitOnce(key, '.')[0] + ThumbnailSuffix
  }

  /** A key without a dot keeps all of its characters and gains the suffix. */
  lemma NewFilenameWithoutDot(key: string)
    requires '.' !in key
    ensures NewFilename(key) == key + ThumbnailSuffix
  {
  }

  /**
   * A key with a dot loses everything from its last dot on, whatever the
   * dropped part holds (a `/` included), and gains the suffix.
   */
  lemma NewFilenameWithDot(stem: string, rest: string)
    requires '.' !in rest
    ensures NewFilename(stem + "." + rest) == stem + ThumbnailSuffix
  {
    var key := stem + "." + rest;
    var parts := RSplitOnce(key, '.');
    assert key[|stem|] == '.';
    assert |parts| == 2;
    assert LastIndexOf(key, '.') == Some(|stem|) by {
      forall j | |stem| < j < |key|
        ensures key[j] != '.'
      {
        assert key[j] == rest[j - |stem| - 1];
      }
    }
    assert parts[0] == key[..|stem|] == stem;
  }

  /** Because the last dot decides, the dropped part may span a `/`. */
  lemma NewFilenameCrossesDirectory()
    ensures NewFilename("photos.v2/cat") == "photos_thumbnail.png"
  {
    var stem, rest := "photos", "v2/cat";
    assert forall j :: 0 <= j < |rest| ==> rest[j] != '.';
    NewFilenameWithDot(stem, rest);
    assert stem + "." + rest == "photos.v2/cat";
    assert stem + ThumbnailSuffix == "photos_thumbnail.png";
  }

  /** A key with an extension after a directory part. */
  lemma NewFilenameOfNestedKey()
    ensures NewFilename("foo/bar.jpg") == "foo/bar_thumbnail.png"
  {
    var stem, rest := "foo/bar", "jpg";
    assert forall j :: 0 <= j < |rest| ==> rest[j] != '.';
    NewFilenameWithDot(stem, rest);
    assert stem + "." + rest == "foo/bar.jpg";
    assert stem + ThumbnailSuffix == "foo/bar_thumbnail.png";
  }

  /** A key without any extension. */
  lemma NewFilenameOfPlainKey()
    ensures NewFilename("nodot") == "nodot_thumbnail.png"
  {
    assert forall j :: 0 <= j < |"nodot"| ==> "nodot"[j] != '.';
    NewFilenameWithoutDot("nodot");
  }

  /** A thumbnail never replaces the image it was generated from. */
  lemma NewFilenameDiffersFromSource(key: string)
    requires !IsThumbnailKey(key)
    ensures NewFilename(key) != key
  {
  }
}
