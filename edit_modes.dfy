/**
  The editor's modes (the `EDIT_MODE` / `STATE` table): "move", "erase",
  or one of the twelve piece names, which places that piece on a click.
  Also the board widget's input events and the handler a mode installs.
 */
module EditModes {
  import opened Wrappers
  import opened Position

  /** How JavaScript renders an optional string as text: a missing one reads "undefined". */
  function Rendered(v: Option<string>): string {
    match v
    case Some(text) => text
    case None => "undefined"
  }

  /** JavaScript truthiness of an optional string: present and not empty. */
  predicate Truthy(v: Option<string>) {
    v.Some? && v.value != ""
  }

  /** The fourteen mode names; each table key maps to itself. */
  const ModeNames: set<string> :=
    {"move", "erase", "wk", "wq", "wr", "wb", "wn", "wp", "bk", "bq", "br", "bb", "bn", "bp"}

  /** `STATE[name]`: the mode stored under `name`, or `undefined` when there is no such key. */
  function Lookup(name: string): (r: Option<string>)
    ensures r.Some? <==> name in ModeNames
    ensures r.Some? ==> r.value == name
  {
    if name in ModeNames then Some(name) else None
  }

  /** Which board callback is enabled: the switch in `switchMode` / `action`. */
  datatype Handler =
    | NoInput      // nothing enabled yet
    | MoveInput    // drag pieces around; a drag dropped off the board removes the piece
    | EraseInput   // touching a piece removes it and vetoes the drag
    | BoardClick   // a click places the current mode's piece

  /** The handler a mode installs; any mode other than move and erase is a piece mode. */
  function HandlerFor(mode: Option<string>): (h: Handler)
    ensures h != NoInput
    ensures h == MoveInput <==> mode == Some("move")
    ensures h == EraseInput <==> mode == Some("erase")
  {
    if mode == Some("move") then MoveInput
    else if mode == Some("erase") then EraseInput
    else BoardClick
  }

  /** Why the board widget canceled a drag. */
  datatype CancelReason = MovedOutOfBoard | OtherReason

  /** The board widget's move-input events. */
  datatype MoveEvent =
    | MoveStart(square: Square)
    | MoveDone(from: Square, to: Square)
    | MoveCanceled(reason: CancelReason)

  /** What a move-input callback did: returned whether the drag goes on, or threw. */
  datatype Reply = Returned(accept: bool) | Threw

  /** The square and piece a drag started from (`moveStartEvent`). */
  datatype DragStart = DragStart(square: Square, piece: Option<string>)
}
