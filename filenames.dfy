/**
 * String surgery on file names: `prefix_from_filename` (defined identically
 * in the bundle-adjustment tool and the stereo header) and the parts of
 * boost::filesystem path handling the tools rely on (extension, filename,
 * `replace_extension` and the `/` operator), for POSIX paths.
 *
 * The path functions carry only length facts in their contracts; what they
 * mean is stated by the lemmas below them, which keeps the solver's work
 * small wherever a path is merely passed along.
 */
module FileNames {

  /** std::string::rfind for one character: the last index of `c`, or -1. */
  function RFind(s: string, c: char): (r: int)
    ensures -1 <= r < |s|
    decreases |s|
  {
    if |s| == 0 then -1
    else if s[|s| - 1] == c then |s| - 1
    else RFind(s[..|s| - 1], c)
  }

  /** rfind finds the last occurrence, and reports -1 exactly when there is none. */
  lemma {:induction false} RFindSpec(s: string, c: char)
    ensures RFind(s, c) == -1 <==> c !in s
    ensures RFind(s, c) >= 0 ==> s[RFind(s, c)] == c && c !in s[RFind(s, c) + 1..]
    decreases |s|
  {
    if |s| > 0 && s[|s| - 1] != c {
      var last := s[|s| - 1];
      var init := s[..|s| - 1];
      RFindSpec(init, c);
      assert RFind(s, c) == RFind(init, c);
      assert s == init + [last];
      assert c in s <==> c in init;
      var r := RFind(init, c);
      if r >= 0 {
        assert s[r] == init[r];
        assert s[r + 1..] == init[r + 1..] + [last];
      }
    }
  }

  /**
   * prefix_from_filename: the name cut at its last '.', or the whole name
   * when it has none; always a prefix of the name.
   */
  function PrefixFromFilename(filename: string): (r: string)
    ensures r <= filename
    ensures '.' !in filename ==> r == filename
    ensures '.' in filename ==>
      |r| < |filename| && filename[|r|] == '.' && '.' !in filename[|r| + 1..]
  {
    RFindSpec(filename, '.');
    var index := RFind(filename, '.');
    if index != -1 then filename[..index] else filename
  }

  /**
   * path::filename(): the part after the last '/'. Boost's filename() gives
   * "." for a path ending in '/' (and "/" for the root) where this gives "";
   * the extension is "" either way.
   */
  function Filename(p: string): (r: string)
    ensures |r| <= |p|
  {
    p[RFind(p, '/') + 1..]
  }

  /** The filename is the separator-free tail of the path. */
  lemma FilenameSpec(p: string)
    ensures Filename(p) == p[|p| - |Filename(p)|..]
    ensures '/' !in Filename(p)
    ensures |Filename(p)| < |p| ==> p[|p| - |Filename(p)| - 1] == '/'
  {
    RFindSpec(p, '/');
  }

  /**
   * path::extension(): the filename from its last '.' on; empty when the
   * filename has no '.' or is "." or "..".
   */
  function Extension(p: string): (r: string)
    ensures |r| <= |p|
  {
    var name := Filename(p);
    if name == "." || name == ".." then ""
    else
      var i := RFind(name, '.');
      if i == -1 then "" else name[i..]
  }

  /** The extension is either empty or a '.' followed by a '.'- and '/'-free word. */
  lemma ExtensionSpec(p: string)
    ensures Extension(p) == "" <==>
      '.' !in Filename(p) || Filename(p) == "." || Filename(p) == ".."
    ensures Extension(p) != "" ==>
      Extension(p)[0] == '.' && '.' !in Extension(p)[1..] && '/' !in Extension(p)
  {
    var name := Filename(p);
    FilenameSpec(p);
    if name != "." && name != ".." {
      assert Extension(p) == (var i := RFind(name, '.'); if i == -1 then "" else name[i..]);
      LastDotTail(name);
    }
  }

  /** The tail of a '/'-free name from its last '.' on. */
  lemma LastDotTail(name: string)
    requires '/' !in name
    ensures RFind(name, '.') == -1 <==> '.' !in name
    ensures RFind(name, '.') >= 0 ==>
      var t := name[RFind(name, '.')..];
      t[0] == '.' && '.' !in t[1..] && '/' !in t
  {
    RFindSpec(name, '.');
    var i := RFind(name, '.');
    if i >= 0 {
      assert name[i..][1..] == name[i + 1..];
      assert forall k :: 0 <= k < |name| - i ==> name[i..][k] == name[i + k];
    }
  }

  /** The path without its extension. */
  function Stem(p: string): string
  {
    p[..|p| - |Extension(p)|]
  }

  /**
   * path::replace_extension(e): drop the current extension and append `e`,
   * with a '.' put in front of it when `e` lacks one.
   */
  function ReplaceExtension(p: string, e: string): string
  {
    if e == "" then Stem(p)
    else if e[0] == '.' then Stem(p) + e
    else Stem(p) + "." + e
  }

  /**
   * The `/` operator of boost::filesystem version 3: an empty right side
   * leaves the left unchanged; a separator is inserted unless the left is
   * empty, the left ends in one or the right starts with one.
   */
  function JoinPath(dir: string, f: string): string
  {
    if f == "" then dir
    else if f[0] == '/' || dir == "" || dir[|dir| - 1] == '/' then dir + f
    else dir + "/" + f
  }

  /** rfind over a concatenation looks in the right part first. */
  lemma {:induction false} RFindConcat(u: string, x: string, c: char)
    ensures RFind(u + x, c) == if c in x then |u| + RFind(x, c) else RFind(u, c)
    decreases |x|
  {
    if |x| == 0 {
      assert u + x == u;
    } else {
      var ux := u + x;
      assert ux[..|ux| - 1] == u + x[..|x| - 1];
      assert x == x[..|x| - 1] + [x[|x| - 1]];
      if x[|x| - 1] != c {
        RFindConcat(u, x[..|x| - 1], c);
      }
    }
  }

  /**
   * Prepending a directory does not change the filename as long as the
   * last separator stays where it was.
   */
  lemma {:induction false} FilenameOfConcat(u: string, x: string)
    requires u == "" || u[|u| - 1] == '/' || '/' in x
    ensures Filename(u + x) == Filename(x)
  {
    RFindConcat(u, x, '/');
    RFindSpec(x, '/');
    if '/' !in x && u != "" {
      assert RFind(u, '/') == |u| - 1;
      assert RFind(u + x, '/') == |u| - 1;
      assert Filename(u + x) == (u + x)[|u|..] == x;
      assert Filename(x) == x;
    } else if '/' !in x {
      assert u + x == x;
    } else {
      var k := RFind(x, '/');
      assert RFind(u + x, '/') == |u| + k;
      assert Filename(u + x) == (u + x)[|u| + k + 1..] == x[k + 1..];
      assert Filename(x) == x[k + 1..];
    }
  }

  /** Joining a non-empty name under a directory keeps its filename. */
  lemma FilenameOfJoin(dir: string, f: string)
    requires f != ""
    ensures Filename(JoinPath(dir, f)) == Filename(f)
  {
    if f[0] == '/' {
      assert '/' in f;
      FilenameOfConcat(dir, f);
    } else if dir == "" || dir[|dir| - 1] == '/' {
      FilenameOfConcat(dir, f);
    } else {
      assert dir + "/" + f == (dir + "/") + f;
      FilenameOfConcat(dir + "/", f);
    }
  }

  /** ... and therefore its extension, which is all a format choice looks at. */
  lemma ExtensionOfJoin(dir: string, f: string)
    requires f != ""
    ensures Extension(JoinPath(dir, f)) == Extension(f)
  {
    FilenameOfJoin(dir, f);
  }

  /**
   * After replace_extension with a plain extension word (no '.', no '/'),
   * the path is not empty and its extension is '.' followed by that word.
   */
  lemma ExtensionOfReplaced(p: string, e: string)
    requires e != "" && '.' !in e && '/' !in e
    ensures ReplaceExtension(p, e) != ""
    ensures Extension(ReplaceExtension(p, e)) == "." + e
  {
    var tail := "." + e;
    assert e[0] != '.';
    assert ReplaceExtension(p, e) == Stem(p) + tail;
    PlainTailExtension(Stem(p), tail);
  }

  /** A path joined under a directory after replace_extension(e) has the extension "." + e. */
  lemma ExtensionOfJoinReplaced(dir: string, p: string, e: string)
    requires e != "" && '.' !in e && '/' !in e
    ensures Extension(JoinPath(dir, ReplaceExtension(p, e))) == "." + e
  {
    ExtensionOfReplaced(p, e);
    ExtensionOfJoin(dir, ReplaceExtension(p, e));
  }

  /** A separator-free tail whose only '.' is its first character is the extension. */
  lemma PlainTailExtension(stem: string, tail: string)
    requires |tail| >= 2 && tail[0] == '.' && '.' !in tail[1..] && '/' !in tail
    ensures Extension(stem + tail) == tail
  {
    FilenameOfLastPart(stem, tail);
    var pre := Filename(stem);
    var name := pre + tail;
    assert Filename(stem + tail) == name;
    assert name[|name| - 1] == tail[|tail| - 1] == tail[1..][|tail| - 2];
    assert name != "." && name != "..";
    DotTail(pre, tail);
  }

  /** rfind of '.' in a name that ends with such a tail finds the tail's dot. */
  lemma DotTail(pre: string, tail: string)
    requires |tail| >= 2 && tail[0] == '.' && '.' !in tail[1..]
    ensures RFind(pre + tail, '.') == |pre|
  {
    assert tail == [tail[0]] + tail[1..];
    assert pre + tail == (pre + [tail[0]]) + tail[1..];
    RFindConcat(pre + [tail[0]], tail[1..], '.');
  }

  /** The filename of `u + x` for `x` free of separators. */
  lemma FilenameOfLastPart(u: string, x: string)
    requires '/' !in x
    ensures Filename(u + x) == Filename(u) + x
  {
    RFindConcat(u, x, '/');
    var k := RFind(u, '/');
    assert (u + x)[k + 1..] == u[k + 1..] + x;
  }
}
