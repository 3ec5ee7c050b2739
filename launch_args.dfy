/** Which video file a launch (or a second launch) asks the player to open:
    `extractVideoPathFromArgv`. */
module LaunchArgs {
  import opened Js
  import opened PosixPath
  import opened VideoFiles

  /** The argument vector as received: an array of arbitrary values, or
      something that is not an array at all. */
  datatype Argv = Args(items: seq<JsValue>) | NotAnArray

  /** `a.replace(/^"|"$/g, '')`: one leading and one trailing '"' removed. */
  function StripQuotes(a: string): string
  {
    var t := if |a| > 0 && a[0] == '"' then a[1..] else a;
    if |t| > 0 && t[|t| - 1] == '"' then t[..|t| - 1] else t
  }

  /** `r` is `a` with `i` characters cut from the front and `j` from the
      back, at most one each; a front character is cut exactly when it is
      '"', and a back character exactly when one is left and it is '"'. */
  predicate QuotesTrimmed(a: string, r: string, i: nat, j: nat)
  {
    i <= 1 && j <= 1 && i + j <= |a| && r == a[i..|a| - j]
    && (i == 1 <==> |a| > 0 && a[0] == '"')
    && (j == 1 <==> |a| > i && a[|a| - 1] == '"')
  }

  /** Stripping removes one leading '"' if there is one, then one trailing
      '"' if one is left, and nothing else: a lone '"' is removed once. */
  lemma StripQuotesSlice(a: string)
    ensures exists i, j :: QuotesTrimmed(a, StripQuotes(a), i, j)
  {
    var i := if |a| > 0 && a[0] == '"' then 1 else 0;
    var j := if |a| > i && a[|a| - 1] == '"' then 1 else 0;
    assert QuotesTrimmed(a, StripQuotes(a), i, j);
  }

  predicate Unquoted(q: string)
  {
    q == "" || (q[0] != '"' && q[|q| - 1] != '"')
  }

  /** Stripping undoes quoting: a string that neither starts nor ends with '"'
      comes back unchanged from itself, from itself in quotes, and from
      itself with only an opening or only a closing quote. */
  lemma StripQuotesInverse(q: string)
    requires Unquoted(q)
    ensures StripQuotes(q) == q
    ensures StripQuotes("\"" + q + "\"") == q
    ensures StripQuotes("\"" + q) == q
    ensures StripQuotes(q + "\"") == q
  {
    assert ("\"" + q + "\"")[1..] == q + "\"";
    assert ("\"" + q)[1..] == q;
    assert (q + "\"")[..|q|] == q;
  }

  /** The checks one argument must pass, in the order the source makes them:
      a non-empty string, non-empty after stripping quotes, absolute, with a
      video extension. */
  predicate Qualifies(a: JsValue)
  {
    a.Str? && a.s != ""
    && var t := StripQuotes(a.s);
       t != "" && IsAbsolute(t) && HasVideoExtension(t)
  }

  /** The index of the first element of `s` that `keep` accepts. */
  function FirstWhere<T>(s: seq<T>, keep: T -> bool): (r: Option<nat>)
    ensures r.Some? ==> r.value < |s| && keep(s[r.value]) && forall j :: 0 <= j < r.value ==> !keep(s[j])
    ensures r.None? ==> forall j :: 0 <= j < |s| ==> !keep(s[j])
  {
    if s == [] then None
    else if keep(s[0]) then Some(0)
    else match FirstWhere(s[1..], keep)
      case None => None
      case Some(i) => Some(i + 1)
  }

  /** Accepted, and nothing before it accepted, is what the first index means. */
  lemma FirstWhereUnique<T>(s: seq<T>, keep: T -> bool, i: nat)
    requires i < |s| && keep(s[i]) && forall j :: 0 <= j < i ==> !keep(s[j])
    ensures FirstWhere(s, keep) == Some(i)
  {
  }

  /** Appending after an accepted element does not move the first index. */
  lemma FirstWhereAppend<T>(s: seq<T>, later: seq<T>, keep: T -> bool, i: nat)
    requires i < |s| && keep(s[i])
    ensures FirstWhere(s + later, keep) == FirstWhere(s, keep)
  {
    var k := FirstWhere(s, keep).value;
    assert forall j :: 0 <= j <= k ==> (s + later)[j] == s[j];
    FirstWhereUnique(s + later, keep, k);
  }

  /** Rejected elements in front shift the first index by their number. */
  lemma FirstWhereAfter<T>(skipped: seq<T>, rest: seq<T>, keep: T -> bool)
    requires forall j :: 0 <= j < |skipped| ==> !keep(skipped[j])
    ensures FirstWhere(rest, keep).None? ==> FirstWhere(skipped + rest, keep).None?
    ensures FirstWhere(rest, keep).Some? ==>
              FirstWhere(skipped + rest, keep) == Some(|skipped| + FirstWhere(rest, keep).value)
  {
    var all := skipped + rest;
    assert forall j :: 0 <= j < |skipped| ==> all[j] == skipped[j];
    assert forall j :: 0 <= j < |rest| ==> all[|skipped| + j] == rest[j];
    match FirstWhere(rest, keep)
    case None =>
      assert forall j :: |skipped| <= j < |all| ==> all[j] == rest[j - |skipped|];
    case Some(i) =>
      FirstWhereUnique(all, keep, |skipped| + i);
  }

  /** The first qualifying argument, quotes stripped. */
  function FirstVideoArg(items: seq<JsValue>): Option<string>
  {
    match FirstWhere(items, Qualifies)
    case None => None
    case Some(i) => Some(StripQuotes(items[i].s))
  }

  /** What `extractVideoPathFromArgv` returns, `None` standing for `null`. */
  function Extracted(argv: Argv): Option<string>
  {
    match argv
    case NotAnArray => None
    case Args(items) => FirstVideoArg(items)
  }

  /** `extractVideoPathFromArgv`: scans the arguments in order and returns the
      first that qualifies. */
  method ExtractVideoPath(argv: Argv) returns (r: Option<string>)
    ensures r == Extracted(argv)
    ensures r.Some? ==> IsAbsolute(r.value) && HasVideoExtension(r.value)
  {
    if argv.NotAnArray? {
      return None;
    }
    var items := argv.items;
    for i := 0 to |items|
      invariant forall j :: 0 <= j < i ==> !Qualifies(items[j])
    {
      var a := items[i];
      if !a.Str? || a.s == "" {
        continue;
      }
      var trimmed := StripQuotes(a.s);
      if trimmed == "" {
        continue;
      }
      if !IsAbsolute(trimmed) {
        continue;
      }
      var ext := LowerCase(ExtName(trimmed));
      HasVideoExtensionIsSetLookup(trimmed);
      if ext !in VideoExtensions {
        continue;
      }
      FirstWhereUnique(items, Qualifies, i);
      return Some(trimmed);
    }
    return None;
  }

  /** The argument found is the first qualifying one: it qualifies, and no
      argument before it does. */
  lemma FirstVideoArgIsFirst(items: seq<JsValue>)
    ensures FirstVideoArg(items).None? <==> forall j :: 0 <= j < |items| ==> !Qualifies(items[j])
    ensures FirstVideoArg(items).Some? ==>
              exists i :: 0 <= i < |items| && Qualifies(items[i])
                          && FirstVideoArg(items) == Some(StripQuotes(items[i].s))
                          && forall j :: 0 <= j < i ==> !Qualifies(items[j])
  {
    if FirstVideoArg(items).Some? {
      var i := FirstWhere(items, Qualifies).value;
      assert Qualifies(items[i]) && FirstVideoArg(items) == Some(StripQuotes(items[i].s));
    }
  }

  /** First match wins: once some argument qualifies, arguments appended
      after them never change the result. */
  lemma FirstVideoArgIgnoresLater(items: seq<JsValue>, later: seq<JsValue>, i: nat)
    requires i < |items| && Qualifies(items[i])
    ensures FirstVideoArg(items + later) == FirstVideoArg(items)
  {
    FirstWhereAppend(items, later, Qualifies, i);
    var k := FirstWhere(items, Qualifies).value;
    assert (items + later)[k] == items[k];
  }

  /** A result is an absolute video path that is one of the arguments with
      its quotes stripped. */
  lemma ExtractedIsStrippedArgument(argv: Argv)
    requires Extracted(argv).Some?
    ensures argv.Args?
    ensures IsAbsolute(Extracted(argv).value) && HasVideoExtension(Extracted(argv).value)
    ensures exists i :: 0 <= i < |argv.items| && argv.items[i].Str?
                        && Extracted(argv).value == StripQuotes(argv.items[i].s)
  {
    FirstVideoArgIsFirst(argv.items);
  }

  /** A launch with `--flag` and a quoted absolute video path opens that path. */
  lemma QuotedArgumentExample(argv: Argv)
    requires argv == Args([Str("--flag"), Str("\"/videos/clip.mp4\"")])
    ensures Extracted(argv) == Some("/videos/clip.mp4")
  {
    FlagDoesNotQualify(argv.items[0]);
    QuotedPathQualifies(argv.items[1]);
    FirstOfTwo(argv.items[0], argv.items[1]);
    assert argv.items == [argv.items[0], argv.items[1]];
  }

  lemma FlagDoesNotQualify(a: JsValue)
    requires a == Str("--flag")
    ensures !Qualifies(a)
  {
    assert StripQuotes("--flag") == "--flag";
  }

  lemma QuotedPathQualifies(a: JsValue)
    requires a == Str("\"/videos/clip.mp4\"")
    ensures Qualifies(a) && StripQuotes(a.s) == "/videos/clip.mp4"
  {
    var q := "/videos/clip.mp4";
    assert a.s == "\"" + q + "\"";
    StripQuotesInverse(q);
    ClipIsVideo(q);
  }

  lemma FirstOfTwo(a: JsValue, b: JsValue)
    requires !Qualifies(a) && Qualifies(b)
    ensures FirstVideoArg([a, b]) == Some(StripQuotes(b.s))
  {
    FirstWhereUnique([a, b], Qualifies, 1);
  }

  lemma ClipIsVideo(q: string)
    requires q == "/videos/clip.mp4"
    ensures HasVideoExtension(q)
  {
    assert NameExtension("clip.mp4") == ".mp4" by {
      assert LastDot("clip.mp4") == Some(4);
    }
    assert q == "/videos" + "/" + "clip.mp4";
    ExtensionOf("/videos", "clip.mp4", ".mp4");
    LowerCaseOfMp4(ExtName(q));
    ExtensionIsVideo(LowerCase(ExtName(q)));
  }
}
