/** The values that cross the bridge between the page and the host: the
    command names `app:command` accepts and the result of the open-file
    dialog. */
module Bridge {
  import opened Js

  /** The six commands of `app:command`. */
  datatype WindowCommand = Reload | ToggleDevTools | Minimize | Maximize | Close | Quit

  /** The name of each command on the wire. */
  function CommandName(c: WindowCommand): string
  {
    match c
    case Reload => "reload"
    case ToggleDevTools => "toggleDevTools"
    case Minimize => "minimize"
    case Maximize => "maximize"
    case Close => "close"
    case Quit => "quit"
  }

  const CommandNames: seq<string> := ["reload", "toggleDevTools", "minimize", "maximize", "close", "quit"]

  /** The `switch (cmd)`: strict equality with each name, so nothing but a
      string can match, and a string matches only by its exact spelling. */
  function ParseCommand(v: JsValue): (r: Option<WindowCommand>)
    ensures r.Some? ==> v == Str(CommandName(r.value))
  {
    if !v.Str? then None
    else if v.s == "reload" then Some(Reload)
    else if v.s == "toggleDevTools" then Some(ToggleDevTools)
    else if v.s == "minimize" then Some(Minimize)
    else if v.s == "maximize" then Some(Maximize)
    else if v.s == "close" then Some(Close)
    else if v.s == "quit" then Some(Quit)
    else None
  }

  /** Every command is recognised by its own name. */
  lemma ParseCommandName(c: WindowCommand)
    ensures ParseCommand(Str(CommandName(c))) == Some(c)
  {
  }

  /** A value is a command exactly when it is one of the six names. */
  lemma ParseCommandAccepts(v: JsValue)
    ensures ParseCommand(v).Some? <==> v.Str? && v.s in CommandNames
  {
  }

  /** No two commands share a name. */
  lemma CommandNameInjective(a: WindowCommand, b: WindowCommand)
    ensures CommandName(a) == CommandName(b) ==> a == b
  {
  }

  /** What `dialog.showOpenDialog` resolves to; `filePaths` is `None` when
      the field is missing. */
  datatype DialogResult = DialogResult(canceled: bool, filePaths: Option<seq<string>>)

  /** The file the user chose (`dialog:openVideo`, and the Open item of the
      context menu): the first path, unless the dialog was cancelled or gave
      no path. */
  function PickedPath(d: DialogResult): (r: Option<string>)
    ensures r.Some? <==> !d.canceled && d.filePaths.Some? && d.filePaths.value != []
    ensures r.Some? ==> r.value == d.filePaths.value[0]
  {
    if d.canceled || d.filePaths.None? || |d.filePaths.value| == 0 then None
    else Some(d.filePaths.value[0])
  }
}
