/**
  POSIX path manipulation as the script uses it: `os.path.basename`, `os.path.splitext`,
  `os.path.join` and `str.lower`, on paths written as strings with '/' as the only
  separator. `LastIndex` is the `str.rfind` that `posixpath` builds these on. `Dirname`
  and `StripTrailingSlashes` model `os.path.dirname`, which the script does not call:
  they are reference definitions that state what "directly inside the folder" means.
 */
module Paths {

  /** `s.rfind(c)`: the last index holding `c`, or -1 when there is none. */
  function LastIndex(s: string, c: char): (r: int)
    ensures -1 <= r < |s|
    ensures r >= 0 ==> s[r] == c
    ensures forall j :: r < j < |s| ==> s[j] != c
  {
    LastIndexBelow(s, c, |s|)
  }

  /** The last index below `k` holding `c`, or -1. */
  function LastIndexBelow(s: string, c: char, k: nat): (r: int)
    requires k <= |s|
    ensures -1 <= r < k
    ensures r >= 0 ==> s[r] == c
    ensures forall j :: r < j < k ==> s[j] != c
  {
    if k == 0 then -1
    else if s[k - 1] == c then k - 1
    else LastIndexBelow(s, c, k - 1)
  }

  /** `os.path.basename(p)`: everything after the last '/'. */
  function Basename(p: string): (b: string)
    ensures |b| <= |p| && b == p[|p| - |b|..]
    ensures '/' !in b
    ensures |b| == |p| || p[|p| - |b| - 1] == '/'
  {
    p[LastIndex(p, '/') + 1..]
  }

  /** Some character at an index in [lo, hi) of `s` is not a dot. */
  predicate HasNonDot(s: string, lo: int, hi: int)
    requires 0 <= lo && hi <= |s|
  {
    exists j :: lo <= j < hi && s[j] != '.'
  }

  /** The final component of `p` holds a character other than '.'. */
  predicate NamedComponent(p: string)
  {
    HasNonDot(p, LastIndex(p, '/') + 1, |p|)
  }

  /** An extension as `splitext` returns one that is not empty: a dot followed by
      characters that are neither dots nor separators. */
  predicate IsExtension(e: string)
  {
    |e| >= 1 && e[0] == '.' && '.' !in e[1..] && '/' !in e
  }

  /** `os.path.splitext(p)`: the suffix from the last dot of the final component is the
      extension, unless the final component holds nothing but dots before that dot. */
  function SplitExt(p: string): (r: (string, string))
    ensures r.0 + r.1 == p
    ensures r.1 == [] || IsExtension(r.1)
  {
    var sep := LastIndex(p, '/');
    var dot := LastIndex(p, '.');
    if dot > sep && HasNonDot(p, sep + 1, dot) then (p[..dot], p[dot..]) else (p, "")
  }

  function Ext(p: string): string { SplitExt(p).1 }

  function Root(p: string): string { SplitExt(p).0 }

  /** The directory part of `os.path.join(folder, name)` when `name` is relative. */
  function DirPrefix(folder: string): string
  {
    if folder == [] || folder[|folder| - 1] == '/' then folder else folder + "/"
  }

  /** `os.path.join(a, b)` for two components. */
  function Join(a: string, b: string): string
  {
    if |b| > 0 && b[0] == '/' then b else DirPrefix(a) + b
  }

  predicate AllSlashes(s: string)
  {
    forall i :: 0 <= i < |s| ==> s[i] == '/'
  }

  /** `s.rstrip('/')` */
  function StripTrailingSlashes(s: string): (r: string)
    ensures |r| <= |s| && r == s[..|r|]
    ensures r == [] || r[|r| - 1] != '/'
    ensures AllSlashes(s[|r|..])
  {
    if s != [] && s[|s| - 1] == '/' then
      var t := s[..|s| - 1];
      var r := StripTrailingSlashes(t);
      assert s[|r|..] == t[|r|..] + [s[|s| - 1]];
      assert t[..|r|] == s[..|r|];
      r
    else s
  }

  /** `os.path.dirname(p)`: the text up to the last '/', without its trailing slashes
      unless it consists of slashes only. */
  function Dirname(p: string): string
  {
    var head := p[..LastIndex(p, '/') + 1];
    if head != [] && !AllSlashes(head) then StripTrailingSlashes(head) else head
  }

  /** `str.lower` on the ASCII letters. */
  function LowerChar(c: char): char
  {
    if 'A' <= c <= 'Z' then (c as int + 32) as char else c
  }

  function Lower(s: string): (r: string)
    ensures |r| == |s|
  {
    seq(|s|, i requires 0 <= i < |s| => LowerChar(s[i]))
  }

  // ---------------------------------------------------------------------------
  // Lemmas about rfind and slices
  // ---------------------------------------------------------------------------

  /** The last occurrence in a concatenation is in the right part when it has one. */
  lemma LastIndexAppend(a: string, b: string, c: char)
    ensures LastIndex(a + b, c) == if c in b then |a| + LastIndex(b, c) else LastIndex(a, c)
  {
    var s := a + b;
    assert forall j :: |a| <= j < |s| ==> s[j] == b[j - |a|];
    assert forall j :: 0 <= j < |a| ==> s[j] == a[j];
    if c in b {
      assert s[|a| + LastIndex(b, c)] == c;
    }
  }

  /** Cutting a string after its last `c` keeps that last `c`. */
  lemma LastIndexPrefix(s: string, k: int, c: char)
    requires LastIndex(s, c) < k <= |s|
    ensures LastIndex(s[..k], c) == LastIndex(s, c)
  {
    var r := LastIndex(s, c);
    if r >= 0 { assert s[..k][r] == c; }
    assert forall j :: r < j < k ==> s[..k][j] == s[j];
  }

  /** Dropping the first `k` characters shifts the last `c`, or loses it. */
  lemma LastIndexSuffix(s: string, k: int, c: char)
    requires 0 <= k <= |s|
    ensures LastIndex(s[k..], c) == if LastIndex(s, c) >= k then LastIndex(s, c) - k else -1
  {
    var r := LastIndex(s, c);
    var t := s[k..];
    assert forall j :: 0 <= j < |t| ==> t[j] == s[j + k];
    if r >= k { assert t[r - k] == c; }
  }

  lemma HasNonDotShift(s: string, k: int, lo: int, hi: int)
    requires 0 <= k <= |s| && 0 <= lo && hi <= |s| - k
    ensures HasNonDot(s[k..], lo, hi) == HasNonDot(s, lo + k, hi + k)
  {
    var t := s[k..];
    if HasNonDot(t, lo, hi) {
      var j :| lo <= j < hi && t[j] != '.';
      assert s[j + k] == t[j];
    }
    if HasNonDot(s, lo + k, hi + k) {
      var j :| lo + k <= j < hi + k && s[j] != '.';
      assert t[j - k] == s[j];
    }
  }

  lemma HasNonDotPrefix(s: string, k: int, lo: int, hi: int)
    requires 0 <= lo && 0 <= k && hi <= k <= |s|
    ensures HasNonDot(s[..k], lo, hi) == HasNonDot(s, lo, hi)
  {
    assert forall j :: lo <= j < hi ==> s[..k][j] == s[j];
  }

  // ---------------------------------------------------------------------------
  // splitext
  // ---------------------------------------------------------------------------

  /** A final component with a non-dot character, followed by a dot and a word without
      dots or separators: exactly that suffix is the extension. */
  lemma ExtOfSuffix(r: string, e: string)
    requires IsExtension(e)
    requires NamedComponent(r)
    ensures Ext(r + e) == e && Root(r + e) == r
  {
    var p := r + e;
    assert '.' in e by { assert e[0] == '.'; }
    assert LastIndex(e, '.') == 0;
    LastIndexAppend(r, e, '/');
    LastIndexAppend(r, e, '.');
    var sep := LastIndex(r, '/');
    HasNonDotPrefix(p, |r|, sep + 1, |r|);
    assert p[..|r|] == r;
    assert p[|r|..] == e;
  }

  /** When the final component has only dots before the extension-like suffix (a hidden
      file such as ".txt", or no name at all), there is no extension. */
  lemma NoExtOfDotName(r: string, e: string)
    requires IsExtension(e)
    requires !NamedComponent(r)
    ensures Ext(r + e) == ""
  {
    var p := r + e;
    assert '.' in e by { assert e[0] == '.'; }
    assert LastIndex(e, '.') == 0;
    LastIndexAppend(r, e, '/');
    LastIndexAppend(r, e, '.');
    var sep := LastIndex(r, '/');
    HasNonDotPrefix(p, |r|, sep + 1, |r|);
    assert p[..|r|] == r;
  }

  /** Every non-empty extension arises as in `ExtOfSuffix`: the path is the root followed
      by the extension, and the root's final component holds a non-dot character. */
  lemma ExtDecomposes(p: string)
    requires Ext(p) != ""
    ensures p == Root(p) + Ext(p)
    ensures IsExtension(Ext(p))
    ensures NamedComponent(Root(p))
  {
    var sep := LastIndex(p, '/');
    var dot := LastIndex(p, '.');
    assert dot > sep && HasNonDot(p, sep + 1, dot);
    LastIndexPrefix(p, dot, '/');
    HasNonDotPrefix(p, dot, sep + 1, dot);
  }

  /** Text without a separator keeps a named final component named. */
  lemma NamedExtend(r: string, e: string)
    requires '/' !in e
    requires NamedComponent(r)
    ensures NamedComponent(r + e)
  {
    LastIndexAppend(r, e, '/');
    var sep := LastIndex(r, '/');
    var j :| sep + 1 <= j < |r| && r[j] != '.';
    assert (r + e)[j] == r[j];
  }

  /** A path with an extension has a named final component. */
  lemma ExtNamesComponent(p: string)
    requires Ext(p) != ""
    ensures NamedComponent(p)
  {
    ExtDecomposes(p);
    NamedExtend(Root(p), Ext(p));
  }

  /** The extension of a path is the extension of its final component. */
  lemma ExtOfBasename(p: string)
    ensures Ext(Basename(p)) == Ext(p)
  {
    var sep := LastIndex(p, '/');
    var dot := LastIndex(p, '.');
    var k := sep + 1;
    var b := p[k..];
    assert Basename(p) == b;
    LastIndexSuffix(p, k, '/');
    LastIndexSuffix(p, k, '.');
    if dot > sep {
      HasNonDotShift(p, k, 0, dot - k);
      assert b[dot - k..] == p[dot..];
    }
  }

  // ---------------------------------------------------------------------------
  // join and dirname
  // ---------------------------------------------------------------------------

  /** `os.path.join` puts a relative name directly below the folder. */
  lemma JoinInside(folder: string, name: string)
    requires name != [] && '/' !in name
    ensures Join(folder, name) == DirPrefix(folder) + name
    ensures Basename(Join(folder, name)) == name
  {
    var d := DirPrefix(folder);
    var p := d + name;
    assert name[0] != '/' by { assert name[0] in name; }
    LastIndexAppend(d, name, '/');
    if d != [] {
      assert d[|d| - 1] == '/';
      assert LastIndex(d, '/') == |d| - 1;
    }
    assert p[|d|..] == name;
  }

  /** For a folder written without a trailing slash, the joined path's directory is that
      folder. */
  lemma DirnameOfJoin(folder: string, name: string)
    requires folder != [] && folder[|folder| - 1] != '/'
    requires name != [] && '/' !in name
    ensures Dirname(Join(folder, name)) == folder
  {
    JoinInside(folder, name);
    var d := folder + "/";
    var p := d + name;
    assert Join(folder, name) == p;
    LastIndexAppend(d, name, '/');
    assert LastIndex(d, '/') == |folder|;
    assert p[..|folder| + 1] == d;
    assert !AllSlashes(d) by { assert d[|folder| - 1] == folder[|folder| - 1]; }
    assert StripTrailingSlashes(d) == folder by {
      assert d[..|d| - 1] == folder;
    }
  }

  /** A named file name with ".pdf" appended, joined below a folder: the result is
      directly inside the folder, and `splitext` sees ".pdf" as its extension and the
      file name as its stem. */
  lemma PdfBelowFolder(folder: string, stem: string)
    requires '/' !in stem && NamedComponent(stem)
    ensures '/' !in stem + ".pdf"
    ensures Join(folder, stem + ".pdf") == DirPrefix(folder) + (stem + ".pdf")
    ensures Basename(Join(folder, stem + ".pdf")) == stem + ".pdf"
    ensures Ext(Join(folder, stem + ".pdf")) == ".pdf"
    ensures Root(Basename(Join(folder, stem + ".pdf"))) == stem
  {
    var name := stem + ".pdf";
    var out := Join(folder, name);
    JoinInside(folder, name);
    ExtOfSuffix(stem, ".pdf");
    ExtOfBasename(out);
  }

  // ---------------------------------------------------------------------------
  // lower
  // ---------------------------------------------------------------------------

  lemma LowerSlice(s: string, i: int, j: int)
    requires 0 <= i <= j <= |s|
    ensures Lower(s[i..j]) == Lower(s)[i..j]
  {
  }

  /** Lowering never creates or removes a dot or a separator, so it keeps the positions
      `rfind` finds. */
  lemma {:induction false} LastIndexBelowLower(s: string, c: char, k: nat)
    requires c == '.' || c == '/'
    requires k <= |s|
    ensures LastIndexBelow(Lower(s), c, k) == LastIndexBelow(s, c, k)
  {
    if k > 0 {
      LastIndexBelowLower(s, c, k - 1);
    }
  }

  /** The extension of a lowered path is the lowered extension. */
  lemma ExtLower(p: string)
    ensures Ext(Lower(p)) == Lower(Ext(p))
  {
    var q := Lower(p);
    LastIndexBelowLower(p, '/', |p|);
    LastIndexBelowLower(p, '.', |p|);
    var sep := LastIndex(p, '/');
    var dot := LastIndex(p, '.');
    if dot > sep {
      assert HasNonDot(q, sep + 1, dot) <==> HasNonDot(p, sep + 1, dot) by {
        forall j | sep + 1 <= j < dot ensures (q[j] != '.') == (p[j] != '.') { }
      }
      LowerSlice(p, dot, |p|);
      assert p[dot..] == p[dot..|p|] && q[dot..] == q[dot..|p|];
    }
  }

  lemma LowerIdempotent(s: string)
    ensures Lower(Lower(s)) == Lower(s)
  {
  }
}
