/** The context menu of `menu:showVideoContext`: its items, which of them
    are enabled, and what clicking each one does. */
module ContextMenu {
  import opened Js
  import opened Bridge

  /** The `state` record the page sends, or `None` when `state` is falsy.
      The pop-up coordinates are not part of this model. */
  datatype MenuState = MenuState(currentFilePath: JsValue, prevPath: JsValue, nextPath: JsValue)

  /** The three paths after sanitising, `None` standing for `null`. An empty
      string passes the `typeof` test and is kept. */
  datatype Sanitized = Sanitized(current: Option<string>, prev: Option<string>, next: Option<string>)

  /** `typeof v === 'string' ? v : null`. */
  function StringField(v: JsValue): (r: Option<string>)
    ensures r.Some? <==> v.Str?
    ensures r.Some? ==> r.value == v.s
  {
    if v.Str? then Some(v.s) else None
  }

  function Sanitize(state: Option<MenuState>): Sanitized
  {
    match state
    case None => Sanitized(None, None, None)
    case Some(st) => Sanitized(StringField(st.currentFilePath), StringField(st.prevPath), StringField(st.nextPath))
  }

  /** `Boolean(p)`: a path that is present and not empty. */
  predicate Truthy(p: Option<string>)
  {
    p.Some? && p.value != ""
  }

  /** The payload of `menu:command`. */
  datatype MenuCommand = OpenPath(path: string) | OpenPathNoResume(path: string) | ToggleFullscreen | TogglePip

  /** The `cmd` field of each payload. */
  function MenuCommandName(c: MenuCommand): string
  {
    match c
    case OpenPath(_) => "openPath"
    case OpenPathNoResume(_) => "openPathNoResume"
    case ToggleFullscreen => "toggleFullscreen"
    case TogglePip => "togglePip"
  }

  datatype ItemKind = Open | Previous | Next | Fullscreen | PictureInPicture | OpenFileLocation

  datatype MenuEntry = Separator | Item(kind: ItemKind, caption: string, enabled: bool)

  /** The template, top to bottom. An item without an `enabled` field is
      enabled. */
  function BuildMenu(s: Sanitized): seq<MenuEntry>
  {
    [ Item(Open, "Open", true),
      Separator,
      Item(Previous, "Previous", Truthy(s.prev)),
      Item(Next, "Next", Truthy(s.next)),
      Separator,
      Item(Fullscreen, "Fullscreen", true),
      Item(PictureInPicture, "Picture in Picture", true),
      Separator,
      Item(OpenFileLocation, "Open file location", Truthy(s.current)) ]
  }

  /** The menu holds an enabled item of this kind. */
  predicate IsEnabled(menu: seq<MenuEntry>, kind: ItemKind)
  {
    exists i :: 0 <= i < |menu| && menu[i].Item? && menu[i].kind == kind && menu[i].enabled
  }

  /** What a click does: a `menu:command` message to the window that asked
      for the menu, a reveal in the file manager, or nothing. */
  datatype Effect = NoEffect | Send(cmd: MenuCommand) | ShowInFolder(path: string)

  /** The click handlers. Open asks the dialog and sends `openPath` with the
      picked file; Previous and Next send `openPathNoResume` with their path;
      the two toggles always send; Open file location reveals the current
      file. Each handler whose path is not truthy does nothing. */
  function ClickEffect(kind: ItemKind, s: Sanitized, dialog: DialogResult): (r: Effect)
    ensures r.Send? && r.cmd.OpenPath? ==> kind == Open && PickedPath(dialog) == Some(r.cmd.path)
    ensures r.Send? && r.cmd.OpenPathNoResume? ==>
              r.cmd.path != ""
              && ((kind == Previous && s.prev == Some(r.cmd.path)) || (kind == Next && s.next == Some(r.cmd.path)))
    ensures r.ShowInFolder? ==> kind == OpenFileLocation && r.path != "" && s.current == Some(r.path)
    ensures kind == Fullscreen <==> r == Send(ToggleFullscreen)
    ensures kind == PictureInPicture <==> r == Send(TogglePip)
  {
    match kind
    case Open =>
      (match PickedPath(dialog)
       case None => NoEffect
       case Some(p) => Send(OpenPath(p)))
    case Previous => if Truthy(s.prev) then Send(OpenPathNoResume(s.prev.value)) else NoEffect
    case Next => if Truthy(s.next) then Send(OpenPathNoResume(s.next.value)) else NoEffect
    case Fullscreen => Send(ToggleFullscreen)
    case PictureInPicture => Send(TogglePip)
    case OpenFileLocation => if Truthy(s.current) then ShowInFolder(s.current.value) else NoEffect
  }

  /** Previous, Next and Open file location are enabled exactly when the
      page sent a non-empty string for their path; the other three items are
      always enabled. */
  lemma EnabledFlags(state: Option<MenuState>)
    ensures var m := BuildMenu(Sanitize(state));
            && (IsEnabled(m, Previous) <==> state.Some? && IsNonEmptyString(state.value.prevPath))
            && (IsEnabled(m, Next) <==> state.Some? && IsNonEmptyString(state.value.nextPath))
            && (IsEnabled(m, OpenFileLocation) <==> state.Some? && IsNonEmptyString(state.value.currentFilePath))
            && IsEnabled(m, Open) && IsEnabled(m, Fullscreen) && IsEnabled(m, PictureInPicture)
  {
    var s := Sanitize(state);
    var m := BuildMenu(s);
    assert m[0].kind == Open && m[2].kind == Previous && m[3].kind == Next;
    assert m[5].kind == Fullscreen && m[6].kind == PictureInPicture && m[8].kind == OpenFileLocation;
  }

  /** An item other than Open does something when clicked exactly when it is
      enabled, so a disabled item is inert. */
  lemma ClickActsIffEnabled(s: Sanitized, kind: ItemKind, dialog: DialogResult)
    requires kind != Open
    ensures ClickEffect(kind, s, dialog) != NoEffect <==> IsEnabled(BuildMenu(s), kind)
  {
    var m := BuildMenu(s);
    assert m[2].kind == Previous && m[3].kind == Next;
    assert m[5].kind == Fullscreen && m[6].kind == PictureInPicture && m[8].kind == OpenFileLocation;
  }

  /** The `cmd` of each item's `menu:command` payload: Open sends
      "openPath", Previous and Next send "openPathNoResume", and the toggles
      send "toggleFullscreen" and "togglePip"; Open file location sends none. */
  lemma ClickCommandNames(kind: ItemKind, s: Sanitized, dialog: DialogResult)
    ensures var r := ClickEffect(kind, s, dialog);
            r.Send? ==> MenuCommandName(r.cmd) == match kind
                                                  case Open => "openPath"
                                                  case Previous => "openPathNoResume"
                                                  case Next => "openPathNoResume"
                                                  case Fullscreen => "toggleFullscreen"
                                                  case PictureInPicture => "togglePip"
                                                  case OpenFileLocation => ""
    ensures kind == OpenFileLocation ==> !ClickEffect(kind, s, dialog).Send?
  {
  }

  /** Previous and Next, when enabled, send `openPathNoResume` with their own
      path; Open file location reveals the current file; Open sends
      `openPath` exactly when the dialog yields a file. */
  lemma ItemsCarryTheirPaths(s: Sanitized, dialog: DialogResult)
    ensures Truthy(s.prev) ==> ClickEffect(Previous, s, dialog) == Send(OpenPathNoResume(s.prev.value))
    ensures Truthy(s.next) ==> ClickEffect(Next, s, dialog) == Send(OpenPathNoResume(s.next.value))
    ensures Truthy(s.current) ==> ClickEffect(OpenFileLocation, s, dialog) == ShowInFolder(s.current.value)
    ensures ClickEffect(Open, s, dialog) != NoEffect <==> PickedPath(dialog).Some?
  {
  }
}
