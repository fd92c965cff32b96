/** The dashboard's key handling (cli/src/tui/init.go): six options laid out in a grid
    of three columns, a cursor moved with the arrow keys, and a current view switched
    with enter and escape. Rendering is left out; `View` only says which screen is
    shown. Go's `/` and `%` truncate toward zero, which `GoDiv` and `GoRem` spell out. */
module Tui {
  import opened Wrappers

  const Options: seq<string> := ["Logs", "DB", "Workflows", "Monitor", "Scaffolder", "Deployer"]

  const Columns := 3

  const MainView := "main"

  /** Go's integer division, truncating toward zero. */
  function GoDiv(a: int, b: int): int
    requires b > 0
  {
    if a >= 0 then a / b else -((-a) / b)
  }

  /** Go's remainder, with the sign of the dividend. */
  function GoRem(a: int, b: int): int
    requires b > 0
  {
    a - b * GoDiv(a, b)
  }

  datatype Model = Model(width: int, height: int, boxWidth: int, boxHeight: int,
                         currentView: string, cursor: int, ready: bool)

  /** initialModel: the main view, the cursor on the first option, not sized yet. */
  const Initial := Model(0, 0, 0, 0, MainView, 0, false)

  /** The messages Update reacts to; any other message leaves the model as it is. */
  datatype Msg = WindowSize(w: int, h: int) | Key(name: string) | OtherMsg

  /** The cursor indexes an option. */
  predicate InGrid(c: int) {
    0 <= c < |Options|
  }

  function Row(c: int): int {
    GoDiv(c, Columns)
  }

  function Column(c: int): int {
    GoRem(c, Columns)
  }

  // Cursor moves, as the four arrow-key branches compute them.

  function Up(c: int): int {
    if c > 2 then c - 3 else c + 3
  }

  function Down(c: int): int {
    if c <= 2 then c + 3 else c - 3
  }

  function Left(c: int): int {
    if GoRem(c, 3) != 0 then c - 1 else c + 2
  }

  function Right(c: int): int {
    if GoRem(c + 1, 3) != 0 then c + 1 else c - 2
  }

  /** Up and down stay in the grid and in the cursor's column, and switch rows. */
  lemma VerticalMovesStayInColumn(c: int)
    requires InGrid(c)
    ensures InGrid(Up(c)) && InGrid(Down(c))
    ensures Column(Up(c)) == Column(c) && Column(Down(c)) == Column(c)
    ensures Row(Up(c)) == 1 - Row(c) && Row(Down(c)) == 1 - Row(c)
  {
  }

  /** Left and right stay in the grid and in the cursor's row, wrapping at the row
      ends. */
  lemma HorizontalMovesStayInRow(c: int)
    requires InGrid(c)
    ensures InGrid(Left(c)) && InGrid(Right(c))
    ensures Row(Left(c)) == Row(c) && Row(Right(c)) == Row(c)
    ensures Column(Left(c)) == (Column(c) + 2) % 3 && Column(Right(c)) == (Column(c) + 1) % 3
  {
  }

  /** Either vertical move pressed twice from a cell of the grid comes back; left and
      right undo each other. */
  lemma MovesUndo(c: int)
    requires InGrid(c)
    ensures Up(Up(c)) == c && Down(Down(c)) == c
    ensures Right(Left(c)) == c && Left(Right(c)) == c
  {
  }

  /** Up and down are the same row toggle, for every cursor value. */
  lemma UpIsDown(c: int)
    ensures Up(c) == Down(c)
  {
  }

  /** What Update hands back to the runtime: the new model and whether it asked to
      quit. */
  datatype Updated = Updated(model: Model, quit: bool)

  const IndexPanic := "index out of range"

  /** model.Update. A window size sets the size, the box size (a ninth of the width, a
      twelfth of the height) and readiness. `ctrl+c`/`q` quit with the model
      unchanged. The arrow keys and their vi letters move the cursor. Enter and space
      open the option under the cursor from the main view and keep any other view; both
      index the options with the cursor, which panics off the grid. Escape and
      backspace return to the main view. Nothing else changes. */
  function Update(m: Model, msg: Msg): (r: Result<Updated>)
    ensures r.Err? <==> msg.Key? && msg.name in {"enter", " "} && !InGrid(m.cursor)
    ensures r.Ok? && r.value.quit <==> msg.Key? && msg.name in {"ctrl+c", "q"}
    ensures r.Ok? && msg.WindowSize? ==>
              r.value.model == m.(width := msg.w, height := msg.h, boxWidth := GoDiv(msg.w, 9),
                                  boxHeight := GoDiv(msg.h, 12), ready := true)
    ensures r.Ok? && msg.Key? && msg.name in {"enter", " "} ==>
              r.value.model.currentView == (if m.currentView == MainView then Options[m.cursor] else m.currentView)
              && r.value.model.(currentView := m.currentView) == m
    ensures r.Ok? && msg.Key? && msg.name in {"esc", "backspace"} ==> r.value.model == m.(currentView := MainView)
    ensures msg.Key? && msg.name in {"up", "k"} ==> r == Ok(Updated(m.(cursor := Up(m.cursor)), false))
    ensures msg.Key? && msg.name in {"down", "j"} ==> r == Ok(Updated(m.(cursor := Down(m.cursor)), false))
    ensures msg.Key? && msg.name in {"left", "h"} ==> r == Ok(Updated(m.(cursor := Left(m.cursor)), false))
    ensures msg.Key? && msg.name in {"right", "l"} ==> r == Ok(Updated(m.(cursor := Right(m.cursor)), false))
    ensures r.Ok? && (msg.OtherMsg? || (msg.Key? && msg.name !in KnownKeys)) ==> r.value.model == m
  {
    match msg
    case WindowSize(w, h) =>
      Ok(Updated(m.(width := w, height := h, boxWidth := GoDiv(w, 9), boxHeight := GoDiv(h, 12), ready := true), false))
    case OtherMsg => Ok(Updated(m, false))
    case Key(k) =>
      if k == "ctrl+c" || k == "q" then Ok(Updated(m, true))
      else if k == "up" || k == "k" then Ok(Updated(m.(cursor := Up(m.cursor)), false))
      else if k == "down" || k == "j" then Ok(Updated(m.(cursor := Down(m.cursor)), false))
      else if k == "left" || k == "h" then Ok(Updated(m.(cursor := Left(m.cursor)), false))
      else if k == "right" || k == "l" then Ok(Updated(m.(cursor := Right(m.cursor)), false))
      else if k == "enter" || k == " " then
        if !InGrid(m.cursor) then Err(IndexPanic)
        else if m.currentView == MainView then Ok(Updated(m.(currentView := Options[m.cursor]), false))
        else Ok(Updated(m, false))
      else if k == "esc" || k == "backspace" then Ok(Updated(m.(currentView := MainView), false))
      else Ok(Updated(m, false))
  }

  const KnownKeys: set<string> :=
    {"ctrl+c", "q", "up", "k", "down", "j", "left", "h", "right", "l", "enter", " ", "esc", "backspace"}

  /** The cursor never leaves the grid, whatever arrives, so enter and space never
      index out of range and the option views can always be drawn. */
  lemma UpdateKeepsCursorInGrid(m: Model, msg: Msg)
    requires InGrid(m.cursor)
    ensures Update(m, msg).Ok?
    ensures InGrid(Update(m, msg).value.model.cursor)
  {
    VerticalMovesStayInColumn(m.cursor);
    HorizontalMovesStayInRow(m.cursor);
  }

  /** The runtime's loop: messages are handed to Update one by one until one asks to
      quit. */
  function Run(m: Model, msgs: seq<Msg>): Result<Model>
    decreases |msgs|
  {
    if |msgs| == 0 then Ok(m)
    else match Update(m, msgs[0])
      case Err(e) => Err(e)
      case Ok(u) => if u.quit then Ok(u.model) else Run(u.model, msgs[1..])
  }

  /** Any sequence of messages from a model on the grid, the initial one included,
      keeps the cursor on the grid and never panics. */
  lemma {:induction false} RunNeverPanics(m: Model, msgs: seq<Msg>)
    requires InGrid(m.cursor)
    ensures Run(m, msgs).Ok? && InGrid(Run(m, msgs).value.cursor)
    decreases |msgs|
  {
    if |msgs| > 0 {
      UpdateKeepsCursorInGrid(m, msgs[0]);
      RunNeverPanics(Update(m, msgs[0]).value.model, msgs[1..]);
    }
  }

  /** Which screen View draws. */
  datatype Screen = Loading | MainScreen | OptionScreen(index: nat)

  /** model.View: "Loading..." until the first window size arrived; then the main
      view, or the option view at the cursor, which panics off the grid. */
  function View(m: Model): (r: Result<Screen>)
    ensures !m.ready ==> r == Ok(Loading)
    ensures m.ready && m.currentView == MainView ==> r == Ok(MainScreen)
    ensures m.ready && m.currentView != MainView ==>
              (r.Ok? <==> InGrid(m.cursor)) && (r.Ok? ==> r.value == OptionScreen(m.cursor))
  {
    if !m.ready then Ok(Loading)
    else if m.currentView == MainView then Ok(MainScreen)
    else if InGrid(m.cursor) then Ok(OptionScreen(m.cursor))
    else Err(IndexPanic)
  }

  /** An option view draws the option under the cursor, not the one that was opened:
      moving right inside an option view changes the screen while `currentView`
      still names the option that was opened. */
  lemma OptionViewFollowsCursor(m: Model)
    requires m.ready && m.currentView != MainView && InGrid(m.cursor)
    ensures var moved := Update(m, Key("right")).value.model;
            moved.currentView == m.currentView
            && View(moved) == Ok(OptionScreen(Right(m.cursor))) && Right(m.cursor) != m.cursor
  {
    HorizontalMovesStayInRow(m.cursor);
  }

  /** Opening an option from the main view and escaping back restores the main view,
      with the cursor where it was. */
  lemma EnterThenEscape(m: Model)
    requires m.currentView == MainView && InGrid(m.cursor)
    ensures var shown := Update(m, Key("enter")).value.model;
            && shown.currentView == Options[m.cursor]
            && Update(shown, Key("esc")).value.model == m
  {
  }
}
