# Simple Video Player host, modelled in Dafny

The repository is a small Electron video player. Its main process (`main.js`)
owns one window and decides which video file the page should play. That file
can come from the command line of the first launch, from a later launch
handed over by the single-instance lock, from the open-file dialog, or from
previous/next navigation in the file's directory. The main process also
answers a few requests from the page over the bridge:

- window commands;
- revealing a file in the file manager;
- a context menu.

The model covers that routing logic:

- `Js` — JavaScript values as the host receives them: a string or something
  else. Also ASCII `toLowerCase`.
- `PosixPath` — the POSIX forms of Node's `path.isAbsolute`, `basename`,
  `dirname`, `extname` and `join`, including the normalisation `join`
  applies.
- `VideoFiles` — `VIDEO_EXTENSIONS` and the case-insensitive extension test.
- `LaunchArgs` — `extractVideoPathFromArgv`. It is a loop method proved
  against a specification function, and the lemmas prove first-match-wins.
- `NaturalSort` — the case-insensitive, numeric-aware comparator (proved a
  total preorder) and a sort proved to return a sorted permutation.
- `Neighbors` — the `video:getNeighbors` pipeline: the filter, the sort,
  the case-insensitive lookup and the previous/next choice.
- `Bridge` — the `app:command` names and the open-file dialog's result.
- `ContextMenu` — the `menu:showVideoContext` template: sanitising the
  state, the enabled flags, and what each click does.
- `HostController` — classes `Host` and `Window`, with methods for start-up,
  `second-instance`, the deferred delivery of the launch file, `activate`,
  `shell:showItemInFolder`, the context menu and `app:command`.

Inputs the code cannot compute become parameters:

- the lock result;
- whether the page is still loading;
- the dialog result;
- the window that sent a request;
- the directory listings, as a map from directory to `(name, isFile)`
  entries. A directory that cannot be read is absent from the map.

In three places the model follows the code's exact behaviour:

- The menu's Previous, Next and "Open file location" items are enabled for a
  non-empty string, not for any path that is "present".
- The dialog's result is not checked to be absolute.
- `second-instance` tests the `mainWindow` reference, which stays set after
  the window is closed. A method call on a closed (destroyed) window throws
  "Object has been destroyed". The listener (main.js:60-67) has no `try`, so
  the program raises an uncaught exception there. The model turns that
  exception into "no effect": a second launch then changes nothing.

## Model

| member | source | states |
|---|---|---|
| Js.LowerCase | main.js:19 | lower-casing keeps the length, turns each ASCII capital into its lower-case letter and keeps every other character |
| Js.LowerCaseHasNoCapital | main.js:19 | no ASCII capital is left after lower-casing |
| Js.LowerCaseIdempotent | main.js:122-123 | lower-casing twice equals lower-casing once |
| PosixPath.IsAbsolute | main.js:18 | a POSIX path is absolute exactly when it starts with '/'; DirName keeps it absolute and ExtractVideoPath's result has it |
| PosixPath.BaseName | main.js:113 | the base name is the '/'-free run of characters that ends where the trailing slashes begin and starts after a '/' or at the start of the path |
| PosixPath.BaseNameEmpty | main.js:113 | the base name is empty exactly when the path is all '/' |
| PosixPath.DirName | main.js:112 | the directory is ".", "/", "//" or a proper prefix ending just before a '/', and an absolute path has an absolute directory |
| PosixPath.DirNameBeforeBaseName | main.js:112 | the directory is everything before the '/' that precedes the base name; "." or "/" when that '/' is missing or is the first character, "//" when it is the second of an absolute path |
| PosixPath.RootFile | main.js:112-113 | a file directly under the root has directory "/" and its own name as base name |
| PosixPath.TrailingSlashIgnored | main.js:112-113 | a trailing '/' changes neither the base name nor, for a non-empty path, the directory || PosixPath.DirNameBaseNameOfConcat | main.js:112-113 | `d + "/" + n` splits back into directory `d` and base name `n` |
| PosixPath.ExtName | main.js:19 | the extension of the base name; NameExtensionShape and ExtNameShape characterise it |
| PosixPath.NameExtensionShape | main.js:19 | an extension is "", or a proper suffix of the name starting at its last '.'; it is empty exactly for ".." or a name with no '.' after its first character |
| PosixPath.ExtNameShape | main.js:19 | a path's extension is a '/'-free suffix of its base name, shorter than it unless empty |
| PosixPath.Join | main.js:126-127 | joins with '/' and normalises; BaseNameOfJoin shows the joined path's base name is the entry name |
| PosixPath.BaseNameOfJoin | main.js:126-127 | joining any directory with an entry name gives a path whose base name is that name |
| VideoFiles.HasVideoExtension | main.js:19-20 | the lower-cased extension is one of the six; HasVideoExtensionIsSetLookup ties it to the set |
| VideoFiles.HasVideoExtensionIsSetLookup | main.js:5 | the extension test is membership of the lower-cased extension in the six-element set |
| VideoFiles.VideoExtensionShape | main.js:19-20 | a path that passes the test has a non-empty base name and an extension of 4 or 5 characters, shorter than that base name |
| VideoFiles.UpperCaseExtensionIsVideo | main.js:19-20 | "/videos/Clip.MP4" passes: the test ignores case |
| VideoFiles.DotNameIsNotVideo | main.js:19-20 | "/videos/.mp4" fails: a leading-dot name has no extension |
| LaunchArgs.StripQuotes | main.js:16 | the regular-expression replace; StripQuotesSlice and StripQuotesInverse characterise it |
| LaunchArgs.StripQuotesSlice | main.js:16 | stripping cuts one leading '"' exactly when there is one, then one trailing '"' exactly when one is left, and nothing else |
| LaunchArgs.StripQuotesInverse | main.js:16 | an unquoted string comes back from itself wrapped in quotes, prefixed by one or suffixed by one |
| LaunchArgs.Qualifies | main.js:15-20 | the four checks in the source's order: a non-empty string, non-empty after stripping, absolute, a video extension; ExtractVideoPath's loop makes them one at a time |
| LaunchArgs.FirstWhere | main.js:14-23 | the index found holds an accepted element with none accepted before it; no index means no element is accepted |
| LaunchArgs.FirstWhereAppend | main.js:14-21 | appending elements after an accepted one does not move the first accepted index |
| LaunchArgs.FirstWhereAfter | main.js:14-20 | rejected elements placed first shift the first accepted index by their number, and leave "none accepted" unchanged |
| LaunchArgs.ExtractVideoPath | main.js:11-27 | the loop returns exactly the first qualifying argument with quotes stripped, or null, including for a non-array; any result is absolute and has a video extension |
| LaunchArgs.FirstVideoArg | main.js:14-23 | the stripped form of the first qualifying argument, or null; FirstVideoArgIsFirst and FirstVideoArgIgnoresLater characterise it |
| LaunchArgs.Extracted | main.js:11-27 | null for a non-array, otherwise FirstVideoArg; ExtractVideoPath computes it and ExtractedIsStrippedArgument characterises it |
| LaunchArgs.FirstVideoArgIsFirst | main.js:14-23 | null iff no argument qualifies; otherwise the result comes from a qualifying argument with none qualifying before it |
| LaunchArgs.FirstVideoArgIgnoresLater | main.js:14-21 | once some argument qualifies, appending more arguments never changes the result |
| LaunchArgs.ExtractedIsStrippedArgument | main.js:16-21 | a result comes from an array argument, is one string argument with quotes stripped, is absolute and has a video extension |
| LaunchArgs.QuotedArgumentExample | main.js:14-21 | `["--flag", "\"/videos/clip.mp4\""]` gives "/videos/clip.mp4" |
| NaturalSort.NameLeq | main.js:120 | the comparator; NameLeqIsTotalPreorder, NameLeqIgnoresCase and the two order examples characterise it |
| NaturalSort.NameLeqIsTotalPreorder | main.js:120 | the comparator orders every pair of names and is transitive |
| NaturalSort.KeyLeqTransitive | main.js:120 | the lexicographic order on keys is transitive |
| NaturalSort.KeyLeqTotal | main.js:120 | any two keys are ordered one way or the other |
| NaturalSort.NameLeqIgnoresCase | main.js:120 | a name compares like its lower-cased form and ties with it |
| NaturalSort.InsertSorted | main.js:120 | inserting into a sorted sequence keeps it sorted |
| NaturalSort.Sort | main.js:120 | the result is a permutation of the input, sorted whenever the comparator is a total preorder |
| NaturalSort.NumericOrderExample | main.js:120 | "2.mp4" sorts strictly before "10.mp4", and sorting `["10.mp4", "2.mp4"]` swaps them |
| NaturalSort.NaturalOrderExample | main.js:120 | "1.mp4", "2.mp4", "10.mp4", "a.MP4" are in this order |
| Neighbors.FilterMembers | main.js:116-119 | an element survives a filter exactly when it was present and passes the test |
| Neighbors.VideoFileNames | main.js:116-119 | the three filter and map steps; VideoFileNamesMembers characterises the result |
| Neighbors.VideoFileNamesMembers | main.js:116-119 | a name passes the filters exactly when some entry of that name is a file with a video extension |
| Neighbors.Candidates | main.js:116-120 | the candidates are sorted and are a permutation of the filtered names |
| Neighbors.CandidatesMembers | main.js:116-120 | a name is a candidate exactly when some entry of that name is a file with a video extension |
| Neighbors.FindIgnoringCase | main.js:122-123 | the index found is the first one whose name equals the base name ignoring case; none means no name matches |
| Neighbors.GetNeighbors | main.js:108-132 | an empty or non-string path, and an unreadable directory, give `{prev: null, next: null}`; otherwise the result is the lookup among the directory's candidates |
| Neighbors.NeighborsAmong | main.js:122-128 | the lookup and the previous/next choice; NeighborsAtPosition, NeighborsOfMissingFile and NeighborsInOrder characterise it |
| Neighbors.NeighborsAtPosition | main.js:123-128 | with the file first matched at index i of n candidates: prev is null iff i = 0, else the directory joined with candidate i-1; next is null iff i = n-1, else the directory joined with candidate i+1 |
| Neighbors.NeighborsOfMissingFile | main.js:123-124 | a base name matching no candidate gives no neighbours, and with two or more candidates this is the only way to get none |
| Neighbors.NeighborsInOrder | main.js:120-128 | over sorted entry names, a neighbour's base name is a candidate; prev sorts no later than the file and next no earlier |
| Neighbors.NeighborsAreVideoFilesInOrder | main.js:112-128 | each neighbour's base name has a video extension and names a file entry of the file's own directory; prev sorts no later than the file and next no earlier |
| Neighbors.NeighborsExample | main.js:122-127 | among "1.mp4", "2.mp4", "10.mp4", "a.MP4", the file "2.MP4" has neighbours "1.mp4" and "10.mp4" |
| Neighbors.NeighborsDependOnDirectoryOnly | main.js:112-128 | the result depends only on the listing of the file's own directory, so repeating the request on an unchanged directory gives the same answer |
| Bridge.ParseCommand | main.js:224-247 | a recognised value is exactly the string name of the command it yields |
| Bridge.ParseCommandName | main.js:224-244 | each of the six commands is recognised by its own name |
| Bridge.ParseCommandAccepts | main.js:224-247 | a value is recognised iff it is a string among the six names |
| Bridge.CommandNameInjective | main.js:224-244 | no two commands share a name |
| Bridge.PickedPath | main.js:104-105 | a file is picked iff the dialog was not cancelled and returned at least one path; it is the first path |
| ContextMenu.StringField | main.js:149-151 | a field is kept iff it is a string, unchanged (the empty string included) |
| ContextMenu.Sanitize | main.js:149-151 | a falsy state gives three nulls, otherwise each field passes through StringField |
| ContextMenu.BuildMenu | main.js:155-211 | the nine-entry template; EnabledFlags and ClickActsIffEnabled characterise it |
| ContextMenu.ClickEffect | main.js:155-211 | `openPath` comes only from Open with the picked file; `openPathNoResume` only from Previous/Next, with their non-empty path; a reveal only from "Open file location", with the non-empty current path; the two toggles always send their command |
| ContextMenu.EnabledFlags | main.js:149-205 | Previous, Next and "Open file location" are enabled iff the page sent a non-empty string for their path; the other items are always enabled |
| ContextMenu.ClickActsIffEnabled | main.js:174-209 | apart from Open, an item has an effect when clicked iff it is enabled |
| ContextMenu.ItemsCarryTheirPaths | main.js:158-209 | enabled Previous/Next send `openPathNoResume` with their own path; "Open file location" reveals the current path; Open acts iff the dialog yields a file |
| ContextMenu.ClickCommandNames | main.js:169-208 | Open sends `cmd` "openPath", Previous and Next "openPathNoResume", the toggles "toggleFullscreen" and "togglePip"; Open file location sends no `menu:command` |
| HostController.OpenedBy | main.js:65 | exactly one `app:openFile` with the path when extraction succeeded, none otherwise |
| HostController.CommandEffect | main.js:224-244 | reload starts loading, toggleDevTools flips dev tools, minimize minimises, maximize flips maximised, close destroys, quit leaves the window; focus never changes |
| HostController.CommandEffectRepeated | main.js:228-238 | the two toggles undo themselves; repeating any other command adds nothing |
| HostController.CommandEffectIsLocal | main.js:224-244 | each command changes only its own flag |
| HostController.Restored | main.js:63-64 | the window ends up not minimised and focused, everything else unchanged |
| HostController.RestoredIdempotent | main.js:63-64 | restoring twice equals restoring once, and a window already forward stays as it is |
| HostController.LaunchDelivery | main.js:71-82 | a delivery is scheduled iff the launch named a file, for that file; it waits for `did-finish-load` iff the page is still loading |
| HostController.Window.constructor | main.js:29-48 | a new window is shown, focused, loading, with no menu and no messages |
| HostController.Host.constructor | main.js:9 | before start-up there is no window and nothing pending |
| HostController.Host.OnReady | main.js:51-83 | without the lock the app quits with no window; with it a fresh main window is created (main.js:46), and the extracted launch file is scheduled as `LaunchDelivery` states |
| HostController.Host.Deliver | main.js:73-76 | an open main window receives one `app:openFile`; otherwise nothing changes |
| HostController.Host.FinishLoad | main.js:78-79 | the page stops loading, and a delivery waiting for the load goes out once and is cleared |
| HostController.Host.GraceDelayElapsed | main.js:80-82 | a delivery waiting for the timer is cleared and goes out once if the window is open |
| HostController.Host.SecondInstance | main.js:60-67 | an open main window ends up restored and focused, and receives exactly the `app:openFile` messages `OpenedBy` gives; otherwise nothing changes |
| HostController.Host.Activate | main.js:85-87 | with no open window a fresh one is created; otherwise nothing changes |
| HostController.Host.ShowItemInFolder | main.js:134-142 | true iff the path is a non-empty string, which is then revealed; nothing else changes |
| HostController.Host.ShowVideoContext | main.js:144-153 | an open sender window shows the menu for the sanitised state; otherwise nothing changes |
| HostController.Host.ClickMenuItem | main.js:155-211 | the menu closes and the click's `ClickEffect` happens: a `menu:command` to the sender, or a reveal |
| HostController.Host.AppCommand | main.js:219-251 | true iff an open sender sent one of the six names; the sender's flags change as `CommandEffect` states, quit makes the app quit, and a false answer changes nothing |

## Left out

- NaturalSort.NameLeq: `localeCompare` with `numeric: true, sensitivity: 'base'` is ICU collation. The model uses a simplified natural order instead. Names are cut into numbers and single characters; punctuation sorts before numbers, and numbers before letters. Accents and non-ASCII letters are not folded.
- NaturalSort.Sort: the contract does not state stability (the order of ties); only sortedness and permutation are proved.
- Js.LowerCase: only ASCII letters are lower-cased. Unicode case mapping, such as the Kelvin sign becoming 'k', is not modelled.
- PosixPath: Windows path rules are not modelled; paths are POSIX.
- Window creation options, the icon, the menu bar, `app.setName`, `Menu.setApplicationMenu` and loading `index.html` are Electron configuration with no routing logic (main.js:7, 29-45, 48, 52).
- The dialog's title and filters are user-interface settings; its result is an input (main.js:95-102, 159-166).
- `window-all-closed` quits except on macOS. This is a platform rule and is not modelled (main.js:90-92).
- The menu's pop-up coordinates (`Number.isFinite`, `Math.round`) are floating-point handling and are not modelled (main.js:152-153, 214).
- The 300 ms delay and `did-finish-load` are event-loop timing. Each becomes a method called when its event happens, and the launch file is delivered at most once.
- `requestSingleInstanceLock`, `isLoadingMainFrame`, `BrowserWindow.fromWebContents` and `readdir` are inputs: a flag, a flag, a window reference and a map of listings.
- Every `try`/`catch` becomes a total function or method whose error branch gives the same default the source returns.
- A closed window: a method call on a destroyed window throws "Object has been destroyed". Where the source has no `try` around such a call (the `second-instance` listener, main.js:60-67, and the delayed `send`, main.js:73-76), this is an uncaught exception. The model turns each such exception into "no effect".
- Minimising a window is not modelled as taking its focus away.
- Asynchronous suspension (`await` on the dialog and on `readdir`) is not modelled. Each handler runs to completion on its inputs.
- preload.js is not part of this model: it only forwards bridge calls and subscriptions.
