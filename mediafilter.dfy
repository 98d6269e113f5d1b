/**
 * The file filter of MainWindow.GetAllVideos: which enumerated paths become catalogue entries.
 * A path is kept when it ends with ".mp4", ".mov", ".png" or ".jpg" under an ordinal,
 * case-insensitive comparison; kept paths stay in enumeration order.  The enumeration itself
 * (Directory.EnumerateFiles over the whole tree) is an input: the entries it yields, in order,
 * and the position at which it throws, if it does.
 */
module MediaFilter {
  import opened Wrappers

  /** Ordinal upper-casing of one character, as the case-insensitive comparison uses it. */
  function UpperChar(c: char): char {
    if 'a' <= c <= 'z' then (c as int - 32) as char else c
  }

  function LowerChar(c: char): char {
    if 'A' <= c <= 'Z' then (c as int + 32) as char else c
  }

  function Lower(s: string): string {
    seq(|s|, i requires 0 <= i < |s| => LowerChar(s[i]))
  }

  /** `a.Equals(b, StringComparison.OrdinalIgnoreCase)`. */
  predicate EqualsIgnoreCase(a: string, b: string) {
    |a| == |b| && forall i :: 0 <= i < |a| ==> UpperChar(a[i]) == UpperChar(b[i])
  }

  /** `s.EndsWith(suffix, StringComparison.OrdinalIgnoreCase)`. */
  predicate EndsWithIgnoreCase(s: string, suffix: string) {
    |suffix| <= |s| && EqualsIgnoreCase(s[|s| - |suffix|..], suffix)
  }

  /**
   * The test that decides whether an enumerated file is added to the video list.  A kept path
   * has at least four characters, the fourth from last being the extension's dot.
   */
  predicate HasMediaExtension(f: string)
    ensures HasMediaExtension(f) ==> |f| >= 4 && f[|f| - 4] == '.'
  {
    || EndsWithIgnoreCase(f, ".mp4")
    || EndsWithIgnoreCase(f, ".mov")
    || EndsWithIgnoreCase(f, ".png")
    || EndsWithIgnoreCase(f, ".jpg")
  }

  /** The four extensions, in lower case. */
  const MediaExtensions: set<string> := {".mp4", ".mov", ".png", ".jpg"}

  /** Against a character that is not an upper-case letter, comparing ignoring case is lower-casing. */
  lemma FoldAgainstLower(a: char, b: char)
    requires LowerChar(b) == b
    ensures UpperChar(a) == UpperChar(b) <==> LowerChar(a) == b
  {
  }

  lemma {:induction false} EqualsIgnoreCaseLower(a: string, b: string)
    requires Lower(b) == b
    ensures EqualsIgnoreCase(a, b) <==> Lower(a) == b
  {
    if |a| == |b| {
      forall i | 0 <= i < |a|
        ensures UpperChar(a[i]) == UpperChar(b[i]) <==> LowerChar(a[i]) == b[i]
      {
        assert LowerChar(b[i]) == Lower(b)[i];
        FoldAgainstLower(a[i], b[i]);
      }
      if Lower(a) == b {
        assert forall i :: 0 <= i < |a| ==> LowerChar(a[i]) == Lower(a)[i];
      } else {
        var i :| 0 <= i < |a| && Lower(a)[i] != b[i];
        assert LowerChar(a[i]) != b[i];
      }
    }
  }

  /**
   * A reference definition of the filter: lower-case the last four characters and look them
   * up among the four extensions.
   */
  lemma HasMediaExtensionByLastFour(f: string)
    ensures HasMediaExtension(f) <==> |f| >= 4 && Lower(f[|f| - 4..]) in MediaExtensions
  {
    if |f| >= 4 {
      var tail := f[|f| - 4..];
      EqualsIgnoreCaseLower(tail, ".mp4");
      EqualsIgnoreCaseLower(tail, ".mov");
      EqualsIgnoreCaseLower(tail, ".png");
      EqualsIgnoreCaseLower(tail, ".jpg");
    }
  }

  /** Case does not matter: two paths that lower-case alike are both kept or both dropped. */
  lemma HasMediaExtensionIgnoresCase(f: string, g: string)
    requires Lower(f) == Lower(g)
    ensures HasMediaExtension(f) <==> HasMediaExtension(g)
  {
    HasMediaExtensionByLastFour(f);
    HasMediaExtensionByLastFour(g);
    if |f| >= 4 {
      assert Lower(f[|f| - 4..]) == Lower(f)[|f| - 4..];
      assert Lower(g[|g| - 4..]) == Lower(g)[|g| - 4..];
    }
  }

  /** The entries of `files` that pass the filter, in enumeration order. */
  function MediaFiles(files: seq<string>): (r: seq<string>)
    ensures |r| <= |files|
    ensures forall i :: 0 <= i < |r| ==> HasMediaExtension(r[i])
  {
    if files == [] then []
    else
      var last := files[|files| - 1];
      MediaFiles(files[..|files| - 1]) + (if HasMediaExtension(last) then [last] else [])
  }

  /** Filtering distributes over concatenation: the filter never reorders. */
  lemma {:induction false} MediaFilesAppend(a: seq<string>, b: seq<string>)
    ensures MediaFiles(a + b) == MediaFiles(a) + MediaFiles(b)
  {
    if b == [] {
      assert a + b == a;
    } else {
      var b' := b[..|b| - 1];
      assert (a + b)[..|a + b| - 1] == a + b';
      assert (a + b)[|a + b| - 1] == b[|b| - 1];
      MediaFilesAppend(a, b');
    }
  }

  /**
   * A path occurs in the filtered list exactly as often as in the enumeration if it has a
   * media extension, and not at all otherwise.
   */
  lemma {:induction false} MediaFilesCount(files: seq<string>, x: string)
    ensures multiset(MediaFiles(files))[x] == if HasMediaExtension(x) then multiset(files)[x] else 0
  {
    if files != [] {
      var init := files[..|files| - 1];
      var last := files[|files| - 1];
      MediaFilesCount(init, x);
      assert files == init + [last];
    }
  }

  /** Membership form: `f` is in the filtered list iff it was enumerated and passes the filter. */
  lemma MediaFilesMembers(files: seq<string>)
    ensures forall f :: f in MediaFiles(files) <==> f in files && HasMediaExtension(f)
  {
    forall f
      ensures f in MediaFiles(files) <==> f in files && HasMediaExtension(f)
    {
      MediaFilesCount(files, f);
    }
  }

  /** Only a path ending in '4', 'v' or 'g' (in either case) can pass the filter. */
  lemma LastCharacterDecides(f: string)
    requires |f| > 0 && UpperChar(f[|f| - 1]) !in {'4', 'V', 'G'}
    ensures !HasMediaExtension(f)
  {
    if |f| >= 4 {
      var tail := f[|f| - 4..];
      assert tail[3] == f[|f| - 1];
    }
  }

  lemma SingleFile(f: string)
    ensures MediaFiles([f]) == if HasMediaExtension(f) then [f] else []
  {
    assert [f][..0] == [];
  }

  lemma KeptPair(a: string, b: string)
    requires HasMediaExtension(a) && HasMediaExtension(b)
    ensures MediaFiles([a, b]) == [a, b]
  {
    SingleFile(a);
    SingleFile(b);
    MediaFilesAppend([a], [b]);
    assert [a] + [b] == [a, b];
  }

  lemma KeptFour(a: string, b: string, c: string, d: string)
    requires HasMediaExtension(a) && HasMediaExtension(b) && HasMediaExtension(c) && HasMediaExtension(d)
    ensures MediaFiles([a, b, c, d]) == [a, b, c, d]
  {
    KeptPair(a, b);
    KeptPair(c, d);
    MediaFilesAppend([a, b], [c, d]);
    assert [a, b] + [c, d] == [a, b, c, d];
  }

  lemma KeptFourDroppedTwo(a: string, b: string, c: string, d: string, e: string, g: string)
    requires HasMediaExtension(a) && HasMediaExtension(b) && HasMediaExtension(c) && HasMediaExtension(d)
    requires !HasMediaExtension(e) && !HasMediaExtension(g)
    ensures MediaFiles([a, b, c, d, e, g]) == [a, b, c, d]
  {
    KeptFour(a, b, c, d);
    SingleFile(e);
    SingleFile(g);
    MediaFilesAppend([e], [g]);
    assert [e] + [g] == [e, g];
    MediaFilesAppend([a, b, c, d], [e, g]);
    assert [a, b, c, d] + [e, g] == [a, b, c, d, e, g];
  }

  lemma KeptTwoDroppedOne(a: string, b: string, e: string)
    requires HasMediaExtension(a) && HasMediaExtension(b) && !HasMediaExtension(e)
    ensures MediaFiles([a, b, e]) == [a, b]
  {
    KeptPair(a, b);
    SingleFile(e);
    MediaFilesAppend([a, b], [e]);
    assert [a, b] + [e] == [a, b, e];
  }

  lemma MediaNamesPass()
    ensures HasMediaExtension("x.mp4") && HasMediaExtension("x.mov")
    ensures HasMediaExtension("x.png") && HasMediaExtension("x.jpg")
    ensures HasMediaExtension("X.MP4") && HasMediaExtension("a/b.Jpg")
  {
    assert EndsWithIgnoreCase("x.mp4", ".mp4");
    assert EndsWithIgnoreCase("x.mov", ".mov");
    assert EndsWithIgnoreCase("x.png", ".png");
    assert EndsWithIgnoreCase("x.jpg", ".jpg");
    assert EndsWithIgnoreCase("X.MP4", ".mp4");
    assert EndsWithIgnoreCase("a/b.Jpg", ".jpg");
  }

  lemma OtherNamesFail()
    ensures !HasMediaExtension("x.txt") && !HasMediaExtension("x.exe") && !HasMediaExtension("x.mp4.txt")
  {
    LastCharacterDecides("x.txt");
    LastCharacterDecides("x.exe");
    LastCharacterDecides("x.mp4.txt");
  }

  /** The four media files all pass, and stay in order. */
  lemma FourMediaFilesKept()
    ensures MediaFiles(["x.mp4", "x.mov", "x.png", "x.jpg"]) == ["x.mp4", "x.mov", "x.png", "x.jpg"]
  {
    MediaNamesPass();
    KeptFour("x.mp4", "x.mov", "x.png", "x.jpg");
  }

  /** Of six files with different extensions, exactly the four media files are kept. */
  lemma FilterExamples()
    ensures MediaFiles(["x.mp4", "x.mov", "x.png", "x.jpg", "x.txt", "x.exe"]) == ["x.mp4", "x.mov", "x.png", "x.jpg"]
  {
    MediaNamesPass();
    OtherNamesFail();
    KeptFourDroppedTwo("x.mp4", "x.mov", "x.png", "x.jpg", "x.txt", "x.exe");
  }

  /** The comparison ignores case, and an extension must be at the very end. */
  lemma FilterCaseExamples()
    ensures MediaFiles(["X.MP4", "a/b.Jpg", "x.mp4.txt"]) == ["X.MP4", "a/b.Jpg"]
  {
    MediaNamesPass();
    OtherNamesFail();
    KeptTwoDroppedOne("X.MP4", "a/b.Jpg", "x.mp4.txt");
  }

  /**
   * What Directory.EnumerateFiles yields during one scan: `entries` in enumeration order, and
   * `failsAt`, the position at which it throws UnauthorizedAccessException or
   * PathTooLongException instead of yielding the next entry (Some(0): the call itself throws).
   */
  datatype Enumeration = Enumeration(entries: seq<string>, failsAt: Option<nat>)

  /** The entries the scan loop gets to see before the enumeration stops. */
  function Reached(e: Enumeration): (r: seq<string>)
    ensures r <= e.entries
    ensures e.failsAt.None? ==> r == e.entries
    ensures e.failsAt.Some? ==> |r| == if e.failsAt.value < |e.entries| then e.failsAt.value else |e.entries|
  {
    match e.failsAt
    case Some(n) => if n < |e.entries| then e.entries[..n] else e.entries
    case None => e.entries
  }

  /**
   * An enumeration error only cuts the scan short: what was kept before it is a prefix of
   * what a scan without the error keeps.
   */
  lemma ScanErrorKeepsPrefix(entries: seq<string>, n: nat)
    ensures MediaFiles(Reached(Enumeration(entries, Some(n)))) <= MediaFiles(entries)
  {
    if n < |entries| {
      MediaFilesAppend(entries[..n], entries[n..]);
      assert entries == entries[..n] + entries[n..];
    }
  }
}
