/** The `video:getNeighbors` request: the video files just before and just
    after a given file in its directory, for previous/next navigation. */
module Neighbors {
  import opened Js
  import opened PosixPath
  import opened VideoFiles
  import opened NaturalSort

  /** One entry of `readdir(dir, { withFileTypes: true })`. */
  datatype Entry = Entry(name: string, isFile: bool)

  /** The directories as the handler finds them when it runs: the listing of
      every directory that can be read. A directory that is missing, not a
      directory or not readable is absent, and reading it fails. */
  type FileSystem = map<string, seq<Entry>>

  /** `{ prev, next }`, `None` standing for `null`. */
  datatype NavigationResult = NavigationResult(prev: Option<string>, next: Option<string>)

  const NoNeighbors := NavigationResult(None, None)

  /** `Array.prototype.filter`. */
  function Filter<T>(s: seq<T>, keep: T -> bool): seq<T>
  {
    if s == [] then [] else (if keep(s[0]) then [s[0]] else []) + Filter(s[1..], keep)
  }

  /** An element is kept exactly when it is in the input and passes. */
  lemma {:induction false} FilterMembers<T>(s: seq<T>, keep: T -> bool, x: T)
    ensures x in Filter(s, keep) <==> x in s && keep(x)
  {
    if s != [] {
      FilterMembers(s[1..], keep, x);
      assert s == [s[0]] + s[1..];
    }
  }

  /** `.map((e) => e.name)`. */
  function Names(entries: seq<Entry>): (r: seq<string>)
    ensures |r| == |entries|
    ensures forall i :: 0 <= i < |entries| ==> r[i] == entries[i].name
  {
    if entries == [] then [] else [entries[0].name] + Names(entries[1..])
  }

  predicate IsFileEntry(e: Entry)
  {
    e.isFile
  }

  /** The `filter`, `map`, `filter` steps: the names of the files with a
      video extension, in listing order. */
  function VideoFileNames(listing: seq<Entry>): seq<string>
  {
    Filter(Names(Filter(listing, IsFileEntry)), HasVideoExtension)
  }

  /** A name is kept exactly when it has a video extension and some file
      entry has that name. */
  lemma VideoFileNamesMembers(listing: seq<Entry>, n: string)
    ensures n in VideoFileNames(listing) <==>
              HasVideoExtension(n) && exists e :: e in listing && e.isFile && e.name == n
  {
    var files := Filter(listing, IsFileEntry);
    FilterMembers(Names(files), HasVideoExtension, n);
    if n in Names(files) {
      var i :| 0 <= i < |files| && Names(files)[i] == n;
      FilterMembers(listing, IsFileEntry, files[i]);
    }
    if e :| e in listing && e.isFile && e.name == n {
      FilterMembers(listing, IsFileEntry, e);
      var i :| 0 <= i < |files| && files[i] == e;
      assert Names(files)[i] == n;
    }
  }

  /** The candidate names: the video files of the listing, sorted by the
      natural order. */
  function Candidates(listing: seq<Entry>): (r: seq<string>)
    ensures Sorted(r, NameLeq)
    ensures multiset(r) == multiset(VideoFileNames(listing))
  {
    NameLeqIsTotalPreorder();
    Sort(VideoFileNames(listing), NameLeq)
  }

  /** The candidates are exactly the names of the listing's files that have
      a video extension. */
  lemma CandidatesMembers(listing: seq<Entry>, n: string)
    ensures n in Candidates(listing) <==>
              HasVideoExtension(n) && exists e :: e in listing && e.isFile && e.name == n
  {
    VideoFileNamesMembers(listing, n);
    assert n in Candidates(listing) <==> n in multiset(Candidates(listing));
    assert n in VideoFileNames(listing) <==> n in multiset(VideoFileNames(listing));
  }

  /** `toLowerCase() === toLowerCase()`. */
  predicate SameIgnoringCase(a: string, b: string)
  {
    LowerCase(a) == LowerCase(b)
  }

  /** `findIndex` with case-insensitive equality: the first index whose name
      equals `base` ignoring case, if there is one. */
  function FindIgnoringCase(files: seq<string>, base: string): (r: Option<nat>)
    ensures r.Some? ==> r.value < |files| && SameIgnoringCase(files[r.value], base)
    ensures r.Some? ==> forall j :: 0 <= j < r.value ==> !SameIgnoringCase(files[j], base)
    ensures r.None? ==> forall j :: 0 <= j < |files| ==> !SameIgnoringCase(files[j], base)
  {
    if files == [] then None
    else if SameIgnoringCase(files[0], base) then Some(0)
    else
      match FindIgnoringCase(files[1..], base)
      case None => None
      case Some(i) => Some(i + 1)
  }

  /** The last step of the handler: locate `base` among the sorted
      candidates and take the entries on either side, joined with `dir`. */
  function NeighborsAmong(dir: string, files: seq<string>, base: string): NavigationResult
  {
    match FindIgnoringCase(files, base)
    case None => NoNeighbors
    case Some(i) =>
      NavigationResult(
        if i > 0 then Some(Join(dir, files[i - 1])) else None,
        if i < |files| - 1 then Some(Join(dir, files[i + 1])) else None)
  }

  /** The handler of `video:getNeighbors`. Every failure (a path that is not
      a non-empty string, a directory that cannot be read, a file not among
      the candidates) gives `{ prev: null, next: null }`. */
  function GetNeighbors(filePath: JsValue, fs: FileSystem): (r: NavigationResult)
    ensures !IsNonEmptyString(filePath) ==> r == NoNeighbors
    ensures IsNonEmptyString(filePath) && DirName(filePath.s) !in fs ==> r == NoNeighbors
    ensures IsNonEmptyString(filePath) && DirName(filePath.s) in fs ==>
              r == NeighborsAmong(DirName(filePath.s), Candidates(fs[DirName(filePath.s)]), BaseName(filePath.s))
  {
    if !IsNonEmptyString(filePath) then NoNeighbors
    else
      var dir := DirName(filePath.s);
      if dir !in fs then NoNeighbors
      else NeighborsAmong(dir, Candidates(fs[dir]), BaseName(filePath.s))
  }

  /** `base` sits at index `i` of `files`: the first entry equal to it
      ignoring case. */
  predicate FirstMatchAt(files: seq<string>, base: string, i: nat)
  {
    && i < |files|
    && SameIgnoringCase(files[i], base)
    && forall j :: 0 <= j < i ==> !SameIgnoringCase(files[j], base)
  }

  /** With the file first matched at index `i` of `n` candidates, `prev` is
      null exactly when `i` is 0 and otherwise the candidate at `i - 1` joined
      with the directory; `next` is null exactly when `i` is `n - 1` and
      otherwise the candidate at `i + 1`. */
  lemma NeighborsAtPosition(dir: string, files: seq<string>, base: string, i: nat)
    requires FirstMatchAt(files, base, i)
    ensures var r := NeighborsAmong(dir, files, base);
            && (r.prev.None? <==> i == 0)
            && (i > 0 ==> r.prev == Some(Join(dir, files[i - 1])))
            && (r.next.None? <==> i == |files| - 1)
            && (i < |files| - 1 ==> r.next == Some(Join(dir, files[i + 1])))
  {
    FindAt(files, base, i);
    NeighborsAtIndex(dir, files, base, i);
  }

  lemma NeighborsAtIndex(dir: string, files: seq<string>, base: string, i: nat)
    requires i < |files| && FindIgnoringCase(files, base) == Some(i)
    ensures var r := NeighborsAmong(dir, files, base);
            && (r.prev.None? <==> i == 0)
            && (i > 0 ==> r.prev == Some(Join(dir, files[i - 1])))
            && (r.next.None? <==> i == |files| - 1)
            && (i < |files| - 1 ==> r.next == Some(Join(dir, files[i + 1])))
  {
  }

  lemma FindAt(files: seq<string>, base: string, i: nat)
    requires FirstMatchAt(files, base, i)
    ensures FindIgnoringCase(files, base) == Some(i)
  {
  }

  /** A name equal to none of the candidates, ignoring case, has no
      neighbours; and it is the only way to have none while there are two
      or more candidates. */
  lemma NeighborsOfMissingFile(dir: string, files: seq<string>, base: string)
    ensures (forall j :: 0 <= j < |files| ==> !SameIgnoringCase(files[j], base))
            ==> NeighborsAmong(dir, files, base) == NoNeighbors
    ensures |files| >= 2 && NeighborsAmong(dir, files, base) == NoNeighbors
            ==> forall j :: 0 <= j < |files| ==> !SameIgnoringCase(files[j], base)
  {
    var found := FindIgnoringCase(files, base);
    if found.Some? && |files| >= 2 {
      if found.value == 0 {
        assert NeighborsAmong(dir, files, base).next.Some?;
      } else {
        assert NeighborsAmong(dir, files, base).prev.Some?;
      }
    }
  }

  /** The key of a name depends only on its lower-cased form. */
  lemma KeyOfSameIgnoringCase(a: string, b: string)
    requires SameIgnoringCase(a, b)
    ensures Key(a) == Key(b)
  {
  }

  /** Over sorted plain names, a neighbour's base name is a candidate, `prev`
      sorts no later than `base` and `next` no earlier. */
  lemma NeighborsInOrder(dir: string, files: seq<string>, base: string)
    requires Sorted(files, NameLeq)
    requires forall j :: 0 <= j < |files| ==> IsPlainName(files[j])
    ensures var r := NeighborsAmong(dir, files, base);
            r.prev.Some? ==> BaseName(r.prev.value) in files && NameLeq(BaseName(r.prev.value), base)
    ensures var r := NeighborsAmong(dir, files, base);
            r.next.Some? ==> BaseName(r.next.value) in files && NameLeq(base, BaseName(r.next.value))
  {
    match FindIgnoringCase(files, base)
    case None =>
    case Some(i) =>
      KeyOfSameIgnoringCase(files[i], base);
      if i > 0 {
        BaseNameOfJoin(dir, files[i - 1]);
        assert NameLeq(files[i - 1], files[i]);
      }
      if i < |files| - 1 {
        BaseNameOfJoin(dir, files[i + 1]);
        assert NameLeq(files[i], files[i + 1]);
      }
  }

  /** When every entry of the directory has a plain name, the neighbours of
      a file are video files of that directory: `prev` sorts no later than
      the file and `next` no earlier. */
  lemma NeighborsAreVideoFilesInOrder(filePath: string, fs: FileSystem)
    requires DirName(filePath) in fs
    requires forall e :: e in fs[DirName(filePath)] ==> IsPlainName(e.name)
    ensures var r := GetNeighbors(Str(filePath), fs);
            r.prev.Some? ==>
              var n := BaseName(r.prev.value);
              && HasVideoExtension(n) && NameLeq(n, BaseName(filePath))
              && exists e :: e in fs[DirName(filePath)] && e.isFile && e.name == n
    ensures var r := GetNeighbors(Str(filePath), fs);
            r.next.Some? ==>
              var n := BaseName(r.next.value);
              && HasVideoExtension(n) && NameLeq(BaseName(filePath), n)
              && exists e :: e in fs[DirName(filePath)] && e.isFile && e.name == n
  {
    if filePath != "" {
      var dir := DirName(filePath);
      var files := Candidates(fs[dir]);
      forall j | 0 <= j < |files| ensures IsPlainName(files[j]) {
        CandidatesMembers(fs[dir], files[j]);
      }
      NeighborsInOrder(dir, files, BaseName(filePath));
      var r := GetNeighbors(Str(filePath), fs);
      if r.prev.Some? {
        CandidatesMembers(fs[dir], BaseName(r.prev.value));
      }
      if r.next.Some? {
        CandidatesMembers(fs[dir], BaseName(r.next.value));
      }
    }
  }

  /** Among "1.mp4", "2.mp4", "10.mp4", "a.MP4" (in natural order, by
      `NaturalOrderExample`), the file "2.MP4" is matched ignoring case and sits between
      "1.mp4" and "10.mp4". */
  lemma NeighborsExample(dir: string, files: seq<string>, base: string)
    requires dir == "/videos" && files == ["1.mp4", "2.mp4", "10.mp4", "a.MP4"] && base == "2.MP4"
    ensures var r := NeighborsAmong(dir, files, base);
            && r.prev.Some? && BaseName(r.prev.value) == "1.mp4"
            && r.next.Some? && BaseName(r.next.value) == "10.mp4"
  {
    ExampleMatch(files, base);
    NeighborsAtPosition(dir, files, base, 1);
    BaseNameOfJoin(dir, files[0]);
    BaseNameOfJoin(dir, files[2]);
  }

  lemma ExampleMatch(files: seq<string>, base: string)
    requires files == ["1.mp4", "2.mp4", "10.mp4", "a.MP4"] && base == "2.MP4"
    ensures FirstMatchAt(files, base, 1)
  {
    LowerCaseWithoutUpper(files[0]);
    LowerCaseWithoutUpper(files[1]);
    assert LowerCase(base) == [LowerChar('2')] + LowerCase(".MP4");
    assert LowerCase(".MP4") == ".mp4";
  }

  /** The result depends on nothing but the listing of the file's own
      directory, so asking twice about an unchanged directory gives the same
      answer. */
  lemma NeighborsDependOnDirectoryOnly(filePath: string, fs1: FileSystem, fs2: FileSystem)
    requires DirName(filePath) in fs1 <==> DirName(filePath) in fs2
    requires DirName(filePath) in fs1 ==> fs1[DirName(filePath)] == fs2[DirName(filePath)]
    ensures GetNeighbors(Str(filePath), fs1) == GetNeighbors(Str(filePath), fs2)
  {
  }
}
