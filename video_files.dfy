/** The set of file extensions the player treats as video. */
module VideoFiles {
  import opened Js
  import opened PosixPath

  /** The elements of `VIDEO_EXTENSIONS`, lower-case and with the leading
      dot, in the order the source lists them. */
  const VideoExtensionList: seq<string> := [".mp4", ".webm", ".mkv", ".avi", ".mov", ".m4v"]

  /** `VIDEO_EXTENSIONS` itself. */
  const VideoExtensions: set<string> := set e | e in VideoExtensionList

  /** Membership in a list, one element at a time. */
  predicate Listed(e: string, exts: seq<string>)
  {
    exts != [] && (e == exts[0] || Listed(e, exts[1..]))
  }

  lemma {:induction false} ListedIsMembership(e: string, exts: seq<string>)
    ensures Listed(e, exts) <==> e in exts
  {
    if exts != [] {
      ListedIsMembership(e, exts[1..]);
      assert exts == [exts[0]] + exts[1..];
    }
  }

  /** `VIDEO_EXTENSIONS.has(path.extname(p).toLowerCase())`. */
  predicate HasVideoExtension(p: string)
  {
    Listed(LowerCase(ExtName(p)), VideoExtensionList)
  }

  /** The list and the set hold the same extensions, so the test is the
      source's set lookup. */
  lemma HasVideoExtensionIsSetLookup(p: string)
    ensures HasVideoExtension(p) <==> LowerCase(ExtName(p)) in VideoExtensions
  {
    ListedIsMembership(LowerCase(ExtName(p)), VideoExtensionList);
  }

  /** A path with a video extension has a non-empty base name that contains a
      '.' after its first character, and the extension is one of six. */
  lemma VideoExtensionShape(p: string)
    requires HasVideoExtension(p)
    ensures |ExtName(p)| == 4 || |ExtName(p)| == 5
    ensures 0 < |ExtName(p)| < |BaseName(p)|
    ensures BaseName(p) != ""
  {
    ExtNameShape(p);
    var x := ExtName(p);
    var e := LowerCase(x);
    assert |e| == |x|;
    HasVideoExtensionIsSetLookup(p);
    VideoExtensionLength(e);
  }

  lemma VideoExtensionLength(e: string)
    requires e in VideoExtensions
    ensures |e| == 4 || |e| == 5
  {
  }

  /** The test ignores the case of the extension. */
  lemma UpperCaseExtensionIsVideo(p: string)
    requires p == "/videos/Clip.MP4"
    ensures HasVideoExtension(p)
  {
    ClipExtension(p);
    LowerCaseOfMp4(ExtName(p));
    ExtensionIsVideo(LowerCase(ExtName(p)));
  }

  lemma ClipExtension(p: string)
    requires p == "/videos/Clip.MP4"
    ensures ExtName(p) == ".MP4"
  {
    assert NameExtension("Clip.MP4") == ".MP4" by {
      assert LastDot("Clip.MP4") == Some(4);
    }
    assert p == "/videos" + "/" + "Clip.MP4";
    ExtensionOf("/videos", "Clip.MP4", ".MP4");
  }

  /** Both spellings of the extension lower-case to ".mp4". */
  lemma LowerCaseOfMp4(e: string)
    requires e == ".MP4" || e == ".mp4"
    ensures LowerCase(e) == ".mp4"
  {
    if e == ".MP4" {
      assert LowerCase(".MP4") == ".mp4";
    } else {
      assert LowerCase(".mp4") == ".mp4";
    }
  }

  lemma ExtensionIsVideo(e: string)
    requires e == ".mp4"
    ensures Listed(e, VideoExtensionList)
  {
  }

  /** A name made of a dot and an extension only has no extension. */
  lemma DotNameIsNotVideo(p: string)
    requires p == "/videos/.mp4"
    ensures !HasVideoExtension(p)
  {
    DotNameExtension(p);
    EmptyExtensionIsNotVideo(ExtName(p));
  }

  lemma DotNameExtension(p: string)
    requires p == "/videos/.mp4"
    ensures ExtName(p) == ""
  {
    assert LastDot(".mp4") == Some(0);
    assert p == "/videos" + "/" + ".mp4";
    ExtensionOf("/videos", ".mp4", "");
  }

  lemma EmptyExtensionIsNotVideo(e: string)
    requires e == ""
    ensures !Listed(LowerCase(e), VideoExtensionList)
  {
    ListedIsMembership(LowerCase(e), VideoExtensionList);
  }

  lemma ExtensionOf(dir: string, name: string, ext: string)
    requires dir != "" && !EndsWithSlash(dir) && name != "" && '/' !in name
    requires NameExtension(name) == ext
    ensures ExtName(dir + "/" + name) == ext
  {
    DirNameBaseNameOfConcat(dir, name);
  }
}
