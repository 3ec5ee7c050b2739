/** The main process's routing around its one window: start-up under the
    single-instance lock, the hand-off from a second launch, the delivery of
    the file named at launch, and the requests the page sends over the
    bridge (`app:command`, `shell:showItemInFolder`, the context menu). */
module HostController {
  import opened Js
  import opened LaunchArgs
  import opened Bridge
  import opened ContextMenu

  /** A message from the host to the page: `app:openFile`, or `menu:command`. */
  datatype Message = OpenFile(path: string) | MenuCommandMessage(cmd: MenuCommand)

  /** `app:openFile` for the extracted path, if there is one. */
  function OpenedBy(extracted: Option<string>): (r: seq<Message>)
    ensures |r| <= 1
    ensures r != [] <==> extracted.Some?
    ensures r != [] ==> r[0] == OpenFile(extracted.value)
  {
    match extracted
    case None => []
    case Some(p) => [OpenFile(p)]
  }

  /** The window state the host reads and changes. */
  datatype WindowFlags = WindowFlags(
    minimized: bool, maximized: bool, focused: bool, devToolsOpen: bool,
    loading: bool, destroyed: bool)

  /** A window as `createWindow` leaves it: shown and focused, starting to
      load the page. */
  const NewWindowFlags := WindowFlags(false, false, true, false, true, false)

  /** What `app:command` does to the window that sent it. */
  function CommandEffect(f: WindowFlags, c: WindowCommand): (r: WindowFlags)
    ensures c == Quit ==> r == f
    ensures c == ToggleDevTools ==> r.devToolsOpen == !f.devToolsOpen
    ensures c == Maximize ==> r.maximized == !f.maximized
    ensures c == Minimize ==> r.minimized
    ensures c == Reload ==> r.loading
    ensures c == Close ==> r.destroyed
    ensures r.focused == f.focused
  {
    match c
    case Reload => f.(loading := true)
    case ToggleDevTools => f.(devToolsOpen := !f.devToolsOpen)
    case Minimize => f.(minimized := true)
    case Maximize => f.(maximized := !f.maximized)
    case Close => f.(destroyed := true)
    case Quit => f
  }

  /** The two toggles undo themselves; every other command, repeated, has no
      further effect. */
  lemma CommandEffectRepeated(f: WindowFlags, c: WindowCommand)
    ensures c == ToggleDevTools || c == Maximize ==> CommandEffect(CommandEffect(f, c), c) == f
    ensures c != ToggleDevTools && c != Maximize ==>
              CommandEffect(CommandEffect(f, c), c) == CommandEffect(f, c)
  {
  }

  /** Each command changes at most one flag, and distinct commands change
      distinct flags. */
  lemma CommandEffectIsLocal(f: WindowFlags, c: WindowCommand)
    ensures var r := CommandEffect(f, c);
            && (r.minimized != f.minimized ==> c == Minimize)
            && (r.maximized != f.maximized ==> c == Maximize)
            && (r.devToolsOpen != f.devToolsOpen ==> c == ToggleDevTools)
            && (r.loading != f.loading ==> c == Reload)
            && (r.destroyed != f.destroyed ==> c == Close)
  {
  }

  /** `if (isMinimized()) restore(); focus();`. */
  function Restored(f: WindowFlags): (r: WindowFlags)
    ensures !r.minimized && r.focused
    ensures r.maximized == f.maximized && r.devToolsOpen == f.devToolsOpen
    ensures r.loading == f.loading && r.destroyed == f.destroyed
  {
    f.(minimized := false, focused := true)
  }

  /** Bringing the window forward twice is bringing it forward once, and a
      window already forward stays as it is. */
  lemma RestoredIdempotent(f: WindowFlags)
    ensures Restored(Restored(f)) == Restored(f)
    ensures !f.minimized && f.focused ==> Restored(f) == f
  {
  }

  /** A browser window and its page. */
  class Window {
    var flags: WindowFlags
    /** The sanitised state behind the context menu on show, if any. */
    var contextMenu: Option<Sanitized>
    /** Messages sent to the page, oldest first. */
    var inbox: seq<Message>

    /** `new BrowserWindow(...)` followed by `loadFile`. */
    constructor ()
      ensures flags == NewWindowFlags && contextMenu == None && inbox == []
    {
      flags := NewWindowFlags;
      contextMenu := None;
      inbox := [];
    }
  }

  /** The launch file's delivery, still to come: on the main window's next
      `did-finish-load`, or when the 300 ms timer fires. */
  datatype Delivery = NoDelivery | OnFinishLoad(path: string) | AfterGraceDelay(path: string)

  /** Where the launch file goes: nowhere without one, otherwise after the
      page has loaded if it is still loading, else after the timer. */
  function LaunchDelivery(initialFile: Option<string>, stillLoading: bool): (d: Delivery)
    ensures d == NoDelivery <==> initialFile.None?
    ensures d.OnFinishLoad? <==> initialFile.Some? && stillLoading
    ensures d != NoDelivery ==> d.path == initialFile.value
  {
    match initialFile
    case None => NoDelivery
    case Some(p) => if stillLoading then OnFinishLoad(p) else AfterGraceDelay(p)
  }

  /** The main process. */
  class Host {
    /** `app.whenReady()` has run its callback. */
    var ready: bool
    /** The lock was obtained, so the `second-instance` and `activate`
        handlers are registered. */
    var listening: bool
    var quitting: bool
    var mainWindow: Window?
    var pending: Delivery
    /** Paths shown in the file manager, oldest first. */
    var revealed: seq<string>

    /** A main window exists exactly when the handlers are registered, and a
        ready host without them is quitting because it lost the lock. */
    ghost predicate Valid()
      reads this
    {
      && (listening ==> ready && mainWindow != null)
      && (!listening ==> mainWindow == null && pending == NoDelivery)
      && (ready && !listening ==> quitting)
    }

    /** The process before `app.whenReady()`. */
    constructor ()
      ensures Valid() && !ready && !listening && !quitting
      ensures mainWindow == null && pending == NoDelivery && revealed == []
    {
      ready := false;
      listening := false;
      quitting := false;
      mainWindow := null;
      pending := NoDelivery;
      revealed := [];
    }

    /** The `whenReady` callback. Without the lock the app quits. With it,
        the handlers are registered, the window is created, and the file this
        launch names (if any) is scheduled for delivery: on `did-finish-load`
        if the page is still loading (`stillLoading`), else after the timer. */
    method OnReady(gotLock: bool, argv: Argv, stillLoading: bool)
      requires Valid() && !ready
      modifies this
      ensures Valid() && ready && revealed == old(revealed)
      ensures !gotLock ==> quitting && !listening && mainWindow == null && pending == NoDelivery
      ensures gotLock ==>
                && listening && quitting == old(quitting)
                && fresh(mainWindow)
                && mainWindow.flags == NewWindowFlags.(loading := stillLoading)
                && mainWindow.contextMenu == None && mainWindow.inbox == []
                && pending == LaunchDelivery(Extracted(argv), stillLoading)
    {
      ready := true;
      if !gotLock {
        quitting := true;
        return;
      }
      listening := true;
      var w := new Window();
      w.flags := w.flags.(loading := stillLoading);
      mainWindow := w;
      var initialFile := ExtractVideoPath(argv);
      pending := LaunchDelivery(initialFile, stillLoading);
    }

    /** `send`: the launch file goes to whatever the main window is now, if
        it is still open. */
    method Deliver(p: string)
      requires Valid()
      modifies mainWindow
      ensures mainWindow != null && !old(mainWindow.flags.destroyed) ==>
                mainWindow.inbox == old(mainWindow.inbox) + [OpenFile(p)]
                && mainWindow.flags == old(mainWindow.flags)
                && mainWindow.contextMenu == old(mainWindow.contextMenu)
      ensures mainWindow != null && old(mainWindow.flags.destroyed) ==> unchanged(mainWindow)
    {
      if mainWindow != null && !mainWindow.flags.destroyed {
        mainWindow.inbox := mainWindow.inbox + [OpenFile(p)];
      }
    }

    /** The main window's page has finished loading. A delivery waiting for
        this goes out now, and only once. */
    method FinishLoad()
      requires Valid()
      modifies this, mainWindow
      ensures Valid()
      ensures ready == old(ready) && listening == old(listening) && quitting == old(quitting)
      ensures mainWindow == old(mainWindow) && revealed == old(revealed)
      ensures mainWindow == null || old(mainWindow.flags.destroyed) ==>
                pending == old(pending) && (mainWindow != null ==> unchanged(mainWindow))
      ensures mainWindow != null && !old(mainWindow.flags.destroyed) ==>
                && mainWindow.flags == old(mainWindow.flags).(loading := false)
                && mainWindow.contextMenu == old(mainWindow.contextMenu)
                && pending == (if old(pending).OnFinishLoad? then NoDelivery else old(pending))
                && mainWindow.inbox == old(mainWindow.inbox)
                     + (if old(pending).OnFinishLoad? then [OpenFile(old(pending).path)] else [])
    {
      if mainWindow == null || mainWindow.flags.destroyed {
        return;
      }
      mainWindow.flags := mainWindow.flags.(loading := false);
      if pending.OnFinishLoad? {
        var p := pending.path;
        pending := NoDelivery;
        Deliver(p);
      }
    }

    /** The 300 ms timer fires. A delivery waiting for it goes out now, once,
        to the main window if it is still open. */
    method GraceDelayElapsed()
      requires Valid()
      modifies this, mainWindow
      ensures Valid()
      ensures ready == old(ready) && listening == old(listening) && quitting == old(quitting)
      ensures mainWindow == old(mainWindow) && revealed == old(revealed)
      ensures pending == (if old(pending).AfterGraceDelay? then NoDelivery else old(pending))
      ensures mainWindow != null ==> mainWindow.flags == old(mainWindow.flags)
                                     && mainWindow.contextMenu == old(mainWindow.contextMenu)
      ensures mainWindow != null ==>
                mainWindow.inbox == old(mainWindow.inbox)
                  + (if old(pending).AfterGraceDelay? && !old(mainWindow.flags.destroyed)
                     then [OpenFile(old(pending).path)] else [])
    {
      if pending.AfterGraceDelay? {
        var p := pending.path;
        pending := NoDelivery;
        Deliver(p);
      }
    }

    /** `second-instance`: another launch handed over its arguments. The open
        main window is restored and focused, and receives the file the
        arguments name, if any; with no open window nothing changes. */
    method SecondInstance(argv: Argv)
      requires Valid()
      modifies mainWindow
      ensures mainWindow != null && (!listening || old(mainWindow.flags.destroyed)) ==> unchanged(mainWindow)
      ensures listening && !old(mainWindow.flags.destroyed) ==>
                && mainWindow.flags == Restored(old(mainWindow.flags))
                && mainWindow.contextMenu == old(mainWindow.contextMenu)
                && mainWindow.inbox == old(mainWindow.inbox) + OpenedBy(Extracted(argv))
    {
      if !listening {
        return;
      }
      var fileToOpen := ExtractVideoPath(argv);
      if !mainWindow.flags.destroyed {
        mainWindow.flags := Restored(mainWindow.flags);
        mainWindow.inbox := mainWindow.inbox + OpenedBy(fileToOpen);
      }
    }

    /** `activate`: with no open window, a new one is created. A delivery
        waiting for the old page to load can then never happen. */
    method Activate()
      requires Valid()
      modifies this
      ensures Valid()
      ensures ready == old(ready) && listening == old(listening) && quitting == old(quitting)
      ensures revealed == old(revealed)
      ensures !listening || !old(mainWindow.flags.destroyed) ==> unchanged(this)
      ensures listening && old(mainWindow.flags.destroyed) ==>
                && fresh(mainWindow)
                && mainWindow.flags == NewWindowFlags
                && mainWindow.contextMenu == None && mainWindow.inbox == []
                && pending == (if old(pending).OnFinishLoad? then NoDelivery else old(pending))
    {
      if listening && mainWindow.flags.destroyed {
        var w := new Window();
        mainWindow := w;
        if pending.OnFinishLoad? {
          pending := NoDelivery;
        }
      }
    }

    /** `shell:showItemInFolder`: reveals a non-empty string path and
        answers true; anything else is refused with false. */
    method ShowItemInFolder(filePath: JsValue) returns (ok: bool)
      requires Valid()
      modifies this
      ensures Valid()
      ensures ok <==> IsNonEmptyString(filePath)
      ensures revealed == old(revealed) + (if ok then [filePath.s] else [])
      ensures ready == old(ready) && listening == old(listening) && quitting == old(quitting)
      ensures mainWindow == old(mainWindow) && pending == old(pending)
    {
      if !IsNonEmptyString(filePath) {
        return false;
      }
      revealed := revealed + [filePath.s];
      return true;
    }

    /** `menu:showVideoContext`: the window that asked shows the menu built
        from the sanitised state. A request from no open window is ignored. */
    method ShowVideoContext(sender: Window?, state: Option<MenuState>)
      modifies sender
      ensures sender != null && old(sender.flags.destroyed) ==> unchanged(sender)
      ensures sender != null && !old(sender.flags.destroyed) ==>
                && sender.contextMenu == Some(Sanitize(state))
                && sender.flags == old(sender.flags) && sender.inbox == old(sender.inbox)
    {
      if sender == null || sender.flags.destroyed {
        return;
      }
      sender.contextMenu := Some(Sanitize(state));
    }

    /** A click on an item of the menu `w` shows. The menu closes, and the
        item's effect happens: a `menu:command` message to `w`, or a reveal
        in the file manager. With no menu on show nothing happens. */
    method ClickMenuItem(w: Window, kind: ItemKind, dialog: DialogResult)
      requires Valid()
      modifies this, w
      ensures Valid()
      ensures ready == old(ready) && listening == old(listening) && quitting == old(quitting)
      ensures mainWindow == old(mainWindow) && pending == old(pending)
      ensures w.flags == old(w.flags)
      ensures old(w.contextMenu).None? ==> unchanged(w) && revealed == old(revealed)
      ensures old(w.contextMenu).Some? ==>
                var e := ClickEffect(kind, old(w.contextMenu).value, dialog);
                && w.contextMenu == None
                && w.inbox == old(w.inbox)
                     + (if e.Send? && !w.flags.destroyed then [MenuCommandMessage(e.cmd)] else [])
                && revealed == old(revealed) + (if e.ShowInFolder? then [e.path] else [])
    {
      if w.contextMenu.None? {
        return;
      }
      var e := ClickEffect(kind, w.contextMenu.value, dialog);
      w.contextMenu := None;
      match e
      case NoEffect =>
      case Send(cmd) =>
        if !w.flags.destroyed {
          w.inbox := w.inbox + [MenuCommandMessage(cmd)];
        }
      case ShowInFolder(p) =>
        revealed := revealed + [p];
    }

    /** `app:command`: a recognised command from an open window is applied
        and answered with true; `quit` makes the app quit. Anything else is
        answered with false and changes nothing. */
    method AppCommand(sender: Window?, cmd: JsValue) returns (handled: bool)
      requires Valid()
      modifies this, sender
      ensures Valid()
      ensures handled <==> sender != null && !old(sender.flags.destroyed) && ParseCommand(cmd).Some?
      ensures !handled ==> unchanged(this) && (sender != null ==> unchanged(sender))
      ensures handled ==>
                && sender.flags == CommandEffect(old(sender.flags), ParseCommand(cmd).value)
                && sender.contextMenu == old(sender.contextMenu) && sender.inbox == old(sender.inbox)
                && quitting == (old(quitting) || ParseCommand(cmd).value == Quit)
                && ready == old(ready) && listening == old(listening)
                && mainWindow == old(mainWindow) && pending == old(pending) && revealed == old(revealed)
    {
      if sender == null || sender.flags.destroyed {
        return false;
      }
      match ParseCommand(cmd)
      case None =>
        return false;
      case Some(c) =>
        sender.flags := CommandEffect(sender.flags, c);
        if c == Quit {
          quitting := true;
        }
        return true;
    }
  }
}
