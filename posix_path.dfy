/** The POSIX behaviour of the Node.js `path` functions the host calls:
    `isAbsolute`, `basename`, `dirname`, `extname` and `join` (with the
    normalisation `join` applies to its result). */
module PosixPath {
  import opened Js

  /** `path.isAbsolute`: a POSIX path is absolute when it starts with '/'. */
  predicate IsAbsolute(p: string)
  {
    |p| > 0 && p[0] == '/'
  }

  predicate EndsWithSlash(p: string)
  {
    |p| > 0 && p[|p| - 1] == '/'
  }

  /** `p` without its trailing '/' characters. */
  function StripTrailingSlashes(p: string): (r: string)
    ensures |r| <= |p| && r == p[..|r|] && !EndsWithSlash(r)
    ensures forall i :: |r| <= i < |p| ==> p[i] == '/'
  {
    if EndsWithSlash(p) then StripTrailingSlashes(p[..|p| - 1]) else p
  }

  /** The characters after the last '/' of `p` (all of `p` when it has none). */
  function LastSegment(p: string): (r: string)
    ensures '/' !in r
    ensures |r| <= |p| && r == p[|p| - |r|..]
    ensures |r| < |p| ==> p[|p| - |r| - 1] == '/'
  {
    if p == [] || p[|p| - 1] == '/' then [] else LastSegment(p[..|p| - 1]) + [p[|p| - 1]]
  }

  /** Appending a name without '/' to a path extends its last segment by that name. */
  lemma {:induction false} LastSegmentAppend(q: string, n: string)
    requires '/' !in n
    ensures LastSegment(q + n) == LastSegment(q) + n
    decreases |n|
  {
    if n != [] {
      var m, c := SplitLast(n);
      LastSegmentAppend(q, m);
      LastSegmentSnoc(q + m, c);
      SnocAssoc(q, m, c);
      SnocAssoc(LastSegment(q), m, c);
    } else {
      assert q + n == q;
    }
  }

  /** A name without '/' is a shorter such name and one more character. */
  lemma SplitLast(n: string) returns (m: string, c: char)
    requires '/' !in n && n != []
    ensures n == m + [c] && c != '/' && '/' !in m && |m| < |n|
  {
    m, c := n[..|n| - 1], n[|n| - 1];
    assert n == m + [c];
    assert c in n;
    forall k | 0 <= k < |m| ensures m[k] != '/' { assert m[k] in n; }
  }

  lemma SnocAssoc<T>(a: seq<T>, b: seq<T>, c: T)
    ensures a + (b + [c]) == (a + b) + [c]
  {
  }

  /** One more character other than '/' extends the last segment by it. */
  lemma LastSegmentSnoc(s: string, c: char)
    requires c != '/'
    ensures LastSegment(s + [c]) == LastSegment(s) + [c]
  {
    assert (s + [c])[..|s|] == s;
  }

  /** `p` has only '/' from index `k` on, and the character before `k`, if
      any, is not '/': the trailing slashes of `p` start at `k`. */
  predicate TrailingSlashesFrom(p: string, k: nat)
  {
    k <= |p| && (forall i :: k <= i < |p| ==> p[i] == '/') && (k == 0 || p[k - 1] != '/')
  }

  /** `path.basename`: the last segment once trailing '/' are dropped, that
      is, the '/'-free run of characters that ends where the trailing slashes
      begin and starts after a '/' or at the start of the path. */
  function BaseName(p: string): (r: string)
    ensures '/' !in r
    ensures exists k: nat :: TrailingSlashesFrom(p, k) && |r| <= k && r == p[k - |r|..k]
                        && (|r| < k ==> p[k - |r| - 1] == '/')
  {
    var q := StripTrailingSlashes(p);
    assert TrailingSlashesFrom(p, |q|);
    assert q == p[..|q|];
    LastSegment(q)
  }

  /** The base name is empty exactly when the path consists of '/' only. */
  lemma BaseNameEmpty(p: string)
    ensures BaseName(p) == "" <==> forall i :: 0 <= i < |p| ==> p[i] == '/'
  {
    var q := StripTrailingSlashes(p);
    if q != [] {
      assert q[|q| - 1] != '/';
      assert LastSegment(q) == LastSegment(q[..|q| - 1]) + [q[|q| - 1]];
      assert p[|q| - 1] != '/';
    }
  }

  /** The index of the last '.' in `s`, if there is one. */
  function LastDot(s: string): (r: Option<nat>)
    ensures r.None? ==> '.' !in s
    ensures r.Some? ==> r.value < |s| && s[r.value] == '.' && '.' !in s[r.value + 1..]
  {
    if s == [] then None
    else if s[|s| - 1] == '.' then Some(|s| - 1)
    else
      var r := LastDot(s[..|s| - 1]);
      assert r.Some? ==> s[r.value + 1..] == s[..|s| - 1][r.value + 1..] + [s[|s| - 1]];
      r
  }

  /** The extension of a single name: from its last '.' on, or "" when the
      name has no '.' after its first character, or is "..". */
  function NameExtension(name: string): string
  {
    match LastDot(name)
    case None => ""
    case Some(d) => if d == 0 || name == ".." then "" else name[d..]
  }

  /** `path.extname`: the extension of the base name, so ".mp4" and "clip"
      have none and "/a/clip.MP4/" has ".MP4". */
  function ExtName(p: string): string
  {
    NameExtension(BaseName(p))
  }

  /** An extension is a proper suffix of the name that starts at its last '.';
      there is none exactly when no '.' follows the first character, or the
      name is "..". */
  lemma NameExtensionShape(name: string)
    ensures var r := NameExtension(name);
            r == "" || (r[0] == '.' && '.' !in r[1..] && |r| < |name| && r == name[|name| - |r|..])
    ensures NameExtension(name) == "" <==> name == ".." || forall i :: 0 < i < |name| ==> name[i] != '.'
  {
    match LastDot(name)
    case None =>
    case Some(d) =>
      if d != 0 && name != ".." {
        assert name[d] == '.' && 0 < d;
      }
  }

  /** The extension of a path is a suffix of its base name and holds no '/'. */
  lemma ExtNameShape(p: string)
    ensures var r := ExtName(p);
            r == "" || (r[0] == '.' && '.' !in r[1..] && '/' !in r && |r| < |BaseName(p)|)
    ensures var r := ExtName(p);
            |r| <= |BaseName(p)| && r == BaseName(p)[|BaseName(p)| - |r|..]
  {
    var name := BaseName(p);
    NameExtensionShape(name);
    SuffixHasNoSlash(name, NameExtension(name));
  }

  lemma SuffixHasNoSlash(name: string, ext: string)
    requires '/' !in name && |ext| <= |name| && ext == name[|name| - |ext|..]
    ensures '/' !in ext
  {
    forall k | 0 <= k < |ext| ensures ext[k] != '/' { assert ext[k] == name[|name| - |ext| + k]; }
  }

  /** Scans indices `i - 1` down to 1 of `p` for the '/' that ends the directory
      part, as Node's `path.dirname` does: trailing '/' are skipped, then the
      last name, and the next '/' is the one. `inName` says the scan has
      passed a character other than '/'. -1 when there is no such '/'. */
  function DirEnd(p: string, i: nat, inName: bool): (e: int)
    requires i <= |p|
    ensures e == -1 || (1 <= e < i && p[e] == '/')
    decreases i
  {
    if i <= 1 then -1
    else if p[i - 1] == '/' then (if inName then i - 1 else DirEnd(p, i - 1, false))
    else DirEnd(p, i - 1, true)
  }

  /** `path.dirname`: "." for a path without a directory part, "/" (or "//")
      for a path directly under the root, otherwise the prefix before the '/'
      that precedes the last name. */
  function DirName(p: string): (r: string)
    ensures r == "." || r == "/" || r == "//" || (0 < |r| < |p| && r == p[..|r|] && p[|r|] == '/')
    ensures IsAbsolute(p) ==> IsAbsolute(r)
  {
    if p == [] then "."
    else
      var end := DirEnd(p, |p|, false);
      if end == -1 then (if p[0] == '/' then "/" else ".")
      else if p[0] == '/' && end == 1 then "//"
      else p[..end]
  }

  /** Scanning over a name (no '/') finds the '/' just before it. */
  lemma {:induction false} DirEndOverName(p: string, slash: nat, i: nat, inName: bool)
    requires 1 <= slash < i <= |p| && p[slash] == '/'
    requires forall k :: slash < k < i ==> p[k] != '/'
    requires inName || i == |p|
    requires i == |p| ==> p[i - 1] != '/'
    ensures DirEnd(p, i, inName) == slash
    decreases i
  {
    if i - 1 != slash {
      DirEndOverName(p, slash, i - 1, true);
    }
  }

  /** A path built as `d + "/" + n`, with `d` not ending in '/' and `n` a name,
      has directory `d` and base name `n`. */
  lemma DirNameBaseNameOfConcat(d: string, n: string)
    requires d != "" && !EndsWithSlash(d)
    requires n != "" && '/' !in n
    ensures DirName(d + "/" + n) == d
    ensures BaseName(d + "/" + n) == n
  {
    DirNameOfConcat(d, n);
    assert d + "/" + n == (d + "/") + n;
    BaseNameAfterSeparator(d + "/", n);
  }

  lemma DirNameOfConcat(d: string, n: string)
    requires d != "" && !EndsWithSlash(d)
    requires n != "" && '/' !in n
    ensures DirName(d + "/" + n) == d
  {
    var p := d + "/" + n;
    assert p[|d|] == '/';
    assert forall k :: |d| < k < |p| ==> p[k] == n[k - |d| - 1];
    DirEndOverName(p, |d|, |p|, false);
    assert p[..|d|] == d;
  }

  /** Scanning back over trailing '/' (not yet in a name) changes nothing. */
  lemma {:induction false} DirEndSkipsSlashes(p: string, k: nat, i: nat)
    requires k <= i <= |p|
    requires forall j :: k <= j < i ==> p[j] == '/'
    ensures DirEnd(p, i, false) == DirEnd(p, k, false)
    decreases i
  {
    if i > 1 && i > k {
      DirEndSkipsSlashes(p, k, i - 1);
    }
  }

  /** Scanning back over a non-empty run of characters other than '/' puts
      the scan inside a name. */
  lemma {:induction false} DirEndSkipsName(p: string, s: nat, i: nat, inName: bool)
    requires s < i <= |p|
    requires forall j :: s <= j < i ==> p[j] != '/'
    ensures DirEnd(p, i, inName) == DirEnd(p, s, true)
    decreases i
  {
    if i > 1 && i - 1 > s {
      DirEndSkipsName(p, s, i - 1, true);
    }
  }

  /** `path.dirname` is the part before the '/' that precedes the base name:
      with `k` where the trailing slashes begin and `e` the index of that '/',
      the result is "." or "/" when no such '/' lies after the first
      character, "//" when it is the second character of an absolute path,
      and otherwise everything before it. */
  lemma DirNameBeforeBaseName(p: string)
    ensures var k := |StripTrailingSlashes(p)|;
            var e := k - |BaseName(p)| - 1;
            DirName(p) == if p == [] then "."
                          else if e < 1 then (if p[0] == '/' then "/" else ".")
                          else if p[0] == '/' && e == 1 then "//"
                          else p[..e]
  {
    if p != [] {
      DirEndBeforeName(p);
    }
  }

  /** The scan of `path.dirname` stops at the '/' before the base name, when
      that '/' is not the first character. */
  lemma DirEndBeforeName(p: string)
    ensures var q := StripTrailingSlashes(p);
            var e := |q| - |LastSegment(q)| - 1;
            DirEnd(p, |p|, false) == if e >= 1 then e else -1
  {
    var q := StripTrailingSlashes(p);
    var b := LastSegment(q);
    var e := |q| - |b| - 1;
    DirEndSkipsSlashes(p, |q|, |p|);
    assert A: DirEnd(p, |p|, false) == DirEnd(p, |q|, false);
    if q != [] {
      NameBeforeTrailingSlashes(p, q, b);
      DirEndSkipsName(p, |q| - |b|, |q|, false);
      assert B: DirEnd(p, |q|, false) == DirEnd(p, |q| - |b|, true);
      SlashBeforeName(p, q, b);
      DirEndAfterName(p, |q| - |b|);
      assert C: DirEnd(p, |q| - |b|, true) == if e >= 1 then e else -1;
    } else {
      assert b == [];
      assert DirEnd(p, 0, false) == -1;
    }
  }

  /** Inside a name, the scan stops at the next '/' unless it has reached
      the first character. */
  lemma DirEndAfterName(p: string, s: nat)
    requires s <= |p| && (s >= 2 ==> p[s - 1] == '/')
    ensures DirEnd(p, s, true) == if s >= 2 then s - 1 else -1
  {
  }

  lemma SlashBeforeName(p: string, q: string, b: string)
    requires q == StripTrailingSlashes(p) && b == LastSegment(q)
    ensures |q| - |b| >= 2 ==> p[|q| - |b| - 1] == '/'
  {
    if |q| - |b| >= 2 {
      assert p[|q| - |b| - 1] == q[|q| - |b| - 1];
    }
  }

  lemma NameBeforeTrailingSlashes(p: string, q: string, b: string)
    requires q == StripTrailingSlashes(p) && q != [] && b == LastSegment(q)
    ensures 0 < |b| <= |q|
    ensures forall j :: |q| - |b| <= j < |q| ==> p[j] != '/'
  {
    assert q[|q| - 1] == p[|q| - 1];
    forall j | |q| - |b| <= j < |q| ensures p[j] != '/' {
      assert p[j] == q[j];
      assert q[j] == b[j - (|q| - |b|)];
    }
  }

  /** A file directly under the root has directory "/" and its own name as
      base name. */
  lemma RootFile(n: string)
    requires n != "" && '/' !in n
    ensures DirName("/" + n) == "/"
    ensures BaseName("/" + n) == n
  {
    BaseNameAfterSeparator("/", n);
    DirNameBeforeBaseName("/" + n);
  }

  /** A trailing '/' changes neither the base name nor, for a non-empty
      path, the directory. */
  lemma TrailingSlashIgnored(p: string)
    ensures BaseName(p + "/") == BaseName(p)
    ensures p != "" ==> DirName(p + "/") == DirName(p)
  {
    var t := p + "/";
    assert t[..|t| - 1] == p;
    assert StripTrailingSlashes(t) == StripTrailingSlashes(p);
    DirNameBeforeBaseName(p);
    DirNameBeforeBaseName(t);
    if p != "" {
      var e := |StripTrailingSlashes(p)| - |BaseName(p)| - 1;
      if e >= 1 {
        assert t[..e] == p[..e];
      }
    }
  }

  /** Splits at every '/', keeping empty segments: "/a//b" gives "", "a", "", "b". */
  function Split(p: string): (r: seq<string>)
    ensures |r| >= 1
    ensures forall k :: 0 <= k < |r| ==> '/' !in r[k]
  {
    if p == [] then [[]]
    else
      var rest := Split(p[1..]);
      if p[0] == '/' then [[]] + rest else [[p[0]] + rest[0]] + rest[1..]
  }

  lemma {:induction false} SplitAtSlash(a: string, b: string)
    ensures Split(a + "/" + b) == Split(a) + Split(b)
  {
    if a == [] {
      assert a + "/" + b == "/" + b;
      assert ("/" + b)[1..] == b;
    } else {
      assert (a + "/" + b)[1..] == a[1..] + "/" + b;
      SplitAtSlash(a[1..], b);
    }
  }

  lemma {:induction false} SplitName(n: string)
    requires '/' !in n
    ensures Split(n) == [n]
  {
    if n != [] {
      assert '/' !in n[1..] by {
        forall k | 0 <= k < |n[1..]| ensures n[1..][k] != '/' { assert n[1..][k] == n[k + 1]; }
      }
      SplitName(n[1..]);
      assert [n[0]] + n[1..] == n;
    }
  }

  /** One step of Node's `normalizeString`: "" and "." are dropped, ".." removes
      the last kept segment unless that is itself "..", in which case (and when
      nothing is kept) it is kept only for a relative path. */
  function Push(kept: seq<string>, seg: string, allowAboveRoot: bool): seq<string>
  {
    if seg == "" || seg == "." then kept
    else if seg == ".." then
      if kept != [] && kept[|kept| - 1] != ".." then kept[..|kept| - 1]
      else if allowAboveRoot then kept + [".."]
      else kept
    else kept + [seg]
  }

  function Resolve(segs: seq<string>, allowAboveRoot: bool): seq<string>
  {
    if segs == [] then []
    else Push(Resolve(segs[..|segs| - 1], allowAboveRoot), segs[|segs| - 1], allowAboveRoot)
  }

  function JoinSegments(segs: seq<string>): string
  {
    if segs == [] then ""
    else if |segs| == 1 then segs[0]
    else JoinSegments(segs[..|segs| - 1]) + "/" + segs[|segs| - 1]
  }

  /** `path.normalize`. */
  function Normalize(p: string): string
  {
    if p == [] then "."
    else
      var absolute := p[0] == '/';
      var trailing := p[|p| - 1] == '/';
      var body := JoinSegments(Resolve(Split(p), !absolute));
      if body == [] then (if absolute then "/" else if trailing then "./" else ".")
      else (if absolute then "/" else "") + body + (if trailing then "/" else "")
  }

  /** `path.join(a, b)`: the non-empty arguments joined by '/', normalised. */
  function Join(a: string, b: string): string
  {
    if a == [] && b == [] then "."
    else if a == [] then Normalize(b)
    else if b == [] then Normalize(a)
    else Normalize(a + "/" + b)
  }

  /** A directory entry name as `readdir` reports it. */
  predicate IsPlainName(n: string)
  {
    n != "" && '/' !in n && n != "." && n != ".."
  }

  lemma BaseNameAfterSeparator(y: string, n: string)
    requires y == "" || EndsWithSlash(y)
    requires n != "" && '/' !in n
    ensures BaseName(y + n) == n
  {
    assert (y + n)[|y + n| - 1] == n[|n| - 1];
    assert StripTrailingSlashes(y + n) == y + n;
    LastSegmentAppend(y, n);
    if y != "" {
      assert LastSegment(y) == [];
    }
  }

  lemma ResolveName(segs: seq<string>, n: string, allowAboveRoot: bool)
    requires IsPlainName(n)
    ensures Resolve(segs + [n], allowAboveRoot) == Resolve(segs, allowAboveRoot) + [n]
  {
    assert (segs + [n])[..|segs|] == segs;
  }

  lemma JoinSegmentsName(kept: seq<string>, n: string)
    ensures JoinSegments(kept + [n]) == (if kept == [] then "" else JoinSegments(kept) + "/") + n
  {
    assert (kept + [n])[..|kept|] == kept;
  }

  /** A path whose last segment is the name `n` normalises to a path whose
      base name is `n`. */
  lemma BaseNameOfNormalize(p: string, segs: seq<string>, n: string)
    requires IsPlainName(n) && p != "" && !EndsWithSlash(p)
    requires Split(p) == segs + [n]
    ensures BaseName(Normalize(p)) == n
  {
    var allow := !(p[0] == '/');
    var kept := Resolve(segs, allow);
    ResolveName(segs, n, allow);
    JoinSegmentsName(kept, n);
    var y := if kept == [] then "" else JoinSegments(kept) + "/";
    assert JoinSegments(Resolve(Split(p), allow)) == y + n;
    if p[0] == '/' {
      assert Normalize(p) == ("/" + y) + n;
      BaseNameAfterSeparator("/" + y, n);
    } else {
      assert Normalize(p) == y + n;
      BaseNameAfterSeparator(y, n);
    }
  }

  /** Joining a directory with an entry name gives a path whose base name is
      that entry name, whatever the directory. */
  lemma BaseNameOfJoin(dir: string, n: string)
    requires IsPlainName(n)
    ensures BaseName(Join(dir, n)) == n
  {
    SplitName(n);
    if dir == [] {
      BaseNameOfNormalize(n, [], n);
    } else {
      var p := dir + "/" + n;
      SplitAtSlash(dir, n);
      assert p[|p| - 1] == n[|n| - 1];
      BaseNameOfNormalize(p, Split(dir), n);
    }
  }
}
