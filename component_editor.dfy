/**
  The component revision of the editor (src/cm-fen-editor/FenEditor.mjs).
  Its state holds the FEN text, whether that text is valid, the colour to
  play, the castling letters and the editing mode. A FEN change is split
  into the colour and the castling letters, and the letters are then
  pruned against the board. Any edit schedules a FEN update, which
  assembles a new FEN from the board, the colour and the letters.

  The board widget, the FEN validity check, the cookie store and the URL
  are outside the model: the widget's placement text and position parsing
  are the functions `placementOf` and `boardOf`, validity is `accepts`, and
  the URL parameter and the stored cookie are inputs.
 */
module ComponentEditor {
  import opened Wrappers
  import opened Position
  import opened FenText
  import opened Castling
  import opened EditModes
  import ObservedEditor

  /** The castling list the state starts with, in the order it is written. */
  const InitialCastling: string := "kKqQ"

  /**
    The constructor's choice of the first FEN: the URL's `fen` if it is
    truthy; otherwise, when a cookie name is set, the cookie if it is
    truthy and `props.fen` if not; with no cookie name, `props.fen`.
   */
  function InitialFen(url: Option<string>, cookieName: Option<string>, cookie: Option<string>, propsFen: string): string {
    if Truthy(url) then url.value
    else if Truthy(cookieName) then
      (if Truthy(cookie) then cookie.value else propsFen)
    else propsFen
  }

  /** Both revisions choose the first FEN by the same priority: URL, then cookie, then the default. */
  lemma InitialFenAgrees(url: Option<string>, cookieName: Option<string>, cookie: Option<string>, propsFen: string)
    ensures InitialFen(url, cookieName, cookie, propsFen) == ObservedEditor.StartFen(url, cookieName, cookie, propsFen)
    ensures Truthy(url) ==> InitialFen(url, cookieName, cookie, propsFen) == url.value
    ensures !Truthy(url) && Truthy(cookieName) && Truthy(cookie) ==>
              InitialFen(url, cookieName, cookie, propsFen) == cookie.value
    ensures !Truthy(url) && !(Truthy(cookieName) && Truthy(cookie)) ==>
              InitialFen(url, cookieName, cookie, propsFen) == propsFen
  {
  }

  /** What the `onChange` callback receives: the FEN and whether it is valid. */
  datatype Notice = Notice(fen: string, valid: bool)

  /**
    The colour and castling letters a FEN change writes: the second and the
    third space-separated field. `None` for the letters means the third
    field is missing, which makes the callback throw.
   */
  function ColorField(value: string): (color: Option<string>)
    ensures |Split(value, ' ')| >= 2 <==> color.Some?
    ensures color.Some? ==> color.value == Split(value, ' ')[1] && ' ' !in color.value
  {
    var parts := Split(value, ' ');
    if |parts| >= 2 then Some(parts[1]) else None
  }

  /** The third space-separated field, when there is one. */
  function CastlingOf(value: string): (letters: Option<string>)
    ensures |Split(value, ' ')| >= 3 <==> letters.Some?
    ensures letters.Some? ==> letters.value == Split(value, ' ')[2] && ' ' !in letters.value
  {
    var parts := Split(value, ' ');
    if |parts| >= 3 then Some(parts[2]) else None
  }

  class Editor {
    /** `state.mode`: the pressed mode button's `data-mode`. */
    var mode: string
    /** `state.fen`. */
    var fen: string
    /** `state.fenValid`. */
    var fenValid: bool
    /** `state.colorToPlay`; `None` once a FEN without a second field was read. */
    var colorToPlay: Option<string>
    /** `state.castling`, one letter per element. */
    var castling: string
    /** The board widget's position. */
    var board: Board
    /** The callback `switchMode` enabled on the board. */
    var handler: Handler
    /** `moveStartEvent`: where the current drag began. */
    var dragStart: Option<DragStart>
    /** A FEN update is scheduled (`debounceFen`); repeated requests collapse into one. */
    var fenUpdatePending: bool
    /** The cookie stored under `cookieName`. */
    var cookie: Option<string>
    /** `lastChangedValue`: the last FEN reported to `onChange`. */
    var lastChanged: Option<string>

    /** `props.cookieName`. */
    const cookieName: Option<string>
    /** Whether `props.onChange` is set. */
    const hasOnChange: bool
    /** Each mode button's `data-mode`, in document order. */
    const buttonModes: seq<string>
    /** Whether each mode button carries the class "active". */
    const active: array<bool>
    /** `new Chess(text)` succeeds. */
    const accepts: string -> bool
    /** `chessboard.setPosition(text)`: the position the widget shows for a FEN. */
    const boardOf: string -> Board
    /** `chessboard.getPosition()`: the placement field for a position. */
    const placementOf: Board -> string

    predicate Valid()
      reads this
    {
      active.Length == |buttonModes|
    }

    /** The constructor: defaults, then the first FEN by URL, cookie and default, on a board showing `propsFen`. */
    constructor(accepts: string -> bool, boardOf: string -> Board, placementOf: Board -> string,
                url: Option<string>, cookieName: Option<string>, cookie: Option<string>,
                propsFen: string, hasOnChange: bool, buttonModes: seq<string>)
      ensures Valid() && fresh(active)
      ensures this.accepts == accepts && this.boardOf == boardOf && this.placementOf == placementOf
      ensures this.cookieName == cookieName && this.cookie == cookie && this.hasOnChange == hasOnChange
      ensures this.buttonModes == buttonModes
      ensures mode == "move" && fenValid && colorToPlay == Some("w") && castling == InitialCastling
      ensures fen == InitialFen(url, cookieName, cookie, propsFen)
      ensures board == boardOf(propsFen)
      ensures handler == NoInput && dragStart == None && !fenUpdatePending && lastChanged == None
    {
      this.accepts := accepts;
      this.boardOf := boardOf;
      this.placementOf := placementOf;
      this.cookieName := cookieName;
      this.cookie := cookie;
      this.hasOnChange := hasOnChange;
      this.buttonModes := buttonModes;
      active := new bool[|buttonModes|];
      mode := "move";
      fenValid := true;
      colorToPlay := Some("w");
      castling := InitialCastling;
      board := boardOf(propsFen);
      handler := NoInput;
      dragStart := None;
      fenUpdatePending := false;
      lastChanged := None;
      fen := InitialFen(url, cookieName, cookie, propsFen);
    }

    /** The `fen` binding's `parse`: the typed text becomes the FEN, and its validity is recorded. */
    method ParseFen(value: string)
      modifies this
      ensures fen == value && fenValid == accepts(value)
      ensures mode == old(mode) && colorToPlay == old(colorToPlay) && castling == old(castling) && board == old(board)
      ensures handler == old(handler) && dragStart == old(dragStart) && fenUpdatePending == old(fenUpdatePending)
      ensures cookie == old(cookie) && lastChanged == old(lastChanged)
    {
      fenValid := accepts(value);
      fen := value;
    }

    /**
      `checkAllowedCastlings`: four flags from the six home squares, then
      for each flag that is off, the first occurrence of its letter is
      spliced out of the list.
     */
    method CheckAllowedCastlings()
      modifies this
      ensures castling == PruneFirst(board, old(castling))
      ensures mode == old(mode) && fen == old(fen) && fenValid == old(fenValid) && colorToPlay == old(colorToPlay)
      ensures board == old(board) && handler == old(handler) && dragStart == old(dragStart)
      ensures fenUpdatePending == old(fenUpdatePending) && cookie == old(cookie) && lastChanged == old(lastChanged)
    {
      var castleWk, castleWq, castleBk, castleBq := true, true, true, true;
      if PieceAt(board, "e1") != Some("wk") {
        castleWk := false;
        castleWq := false;
      }
      if PieceAt(board, "h1") != Some("wr") {
        castleWk := false;
      }
      if PieceAt(board, "a1") != Some("wr") {
        castleWq := false;
      }
      if PieceAt(board, "e8") != Some("bk") {
        castleBk := false;
        castleBq := false;
      }
      if PieceAt(board, "h8") != Some("br") {
        castleBk := false;
      }
      if PieceAt(board, "a8") != Some("br") {
        castleBq := false;
      }
      AllowedByTable(board);
      assert castleWk == Allowed(board, 'K') && castleWq == Allowed(board, 'Q');
      assert castleBk == Allowed(board, 'k') && castleBq == Allowed(board, 'q');
      if !castleWk {
        SpliceOut('K');
      }
      assert castling == DropUnless(castleWk, old(castling), 'K');
      ghost var s1 := castling;
      if !castleWq {
        SpliceOut('Q');
      }
      assert castling == DropUnless(castleWq, s1, 'Q');
      ghost var s2 := castling;
      if !castleBk {
        SpliceOut('k');
      }
      assert castling == DropUnless(castleBk, s2, 'k');
      ghost var s3 := castling;
      if !castleBq {
        SpliceOut('q');
      }
      assert castling == DropUnless(castleBq, s3, 'q');
    }

    /** `indexOf(letter)`, then `splice(index, 1)` when found. */
    method SpliceOut(letter: char)
      modifies this
      ensures castling == RemoveFirst(old(castling), letter)
      ensures mode == old(mode) && fen == old(fen) && fenValid == old(fenValid) && colorToPlay == old(colorToPlay)
      ensures board == old(board) && handler == old(handler) && dragStart == old(dragStart)
      ensures fenUpdatePending == old(fenUpdatePending) && cookie == old(cookie) && lastChanged == old(lastChanged)
    {
      SpliceAtIndexOf(castling, letter);
      var index := IndexOf(castling, letter);
      if index != -1 {
        castling := castling[..index] + castling[index + 1..];
      }
    }

    /**
      The `fen` binding's `transform`: the colour becomes the second field;
      without a third field the callback throws there (`ok` is false);
      otherwise the castling letters become the third field, the board
      shows `value`, the letters are pruned against it, and `onChange` hears
      of `value` unless it was the last value reported.
     */
    method TransformFen(value: string) returns (ok: bool, notice: Option<Notice>)
      modifies this
      ensures colorToPlay == ColorField(value)
      ensures ok <==> CastlingOf(value).Some?
      ensures !ok ==> castling == old(castling) && board == old(board) && notice == None && lastChanged == old(lastChanged)
      ensures ok ==> board == boardOf(value) && castling == PruneFirst(boardOf(value), CastlingOf(value).value)
      ensures ok && hasOnChange && old(lastChanged) != Some(value) ==>
                notice == Some(Notice(value, fenValid)) && lastChanged == Some(value)
      ensures ok && !(hasOnChange && old(lastChanged) != Some(value)) ==> notice == None && lastChanged == old(lastChanged)
      ensures mode == old(mode) && fen == old(fen) && fenValid == old(fenValid)
      ensures handler == old(handler) && dragStart == old(dragStart)
      ensures fenUpdatePending == old(fenUpdatePending) && cookie == old(cookie)
    {
      var parts := Split(value, ' ');
      colorToPlay := if |parts| >= 2 then Some(parts[1]) else None;
      notice := None;
      if |parts| < 3 {
        ok := false;
        return;
      }
      ok := true;
      castling := parts[2];
      board := boardOf(value);
      CheckAllowedCastlings();
      if hasOnChange && lastChanged != Some(value) {
        notice := Some(Notice(value, fenValid));
        lastChanged := Some(value);
      }
    }

    /** `updateFen`: schedule the FEN update, replacing one already scheduled. */
    method UpdateFen()
      modifies this
      ensures fenUpdatePending
      ensures mode == old(mode) && fen == old(fen) && fenValid == old(fenValid) && colorToPlay == old(colorToPlay)
      ensures castling == old(castling) && board == old(board) && handler == old(handler) && dragStart == old(dragStart)
      ensures cookie == old(cookie) && lastChanged == old(lastChanged)
    {
      fenUpdatePending := true;
    }

    /**
      The scheduled FEN update runs: with a valid FEN, the FEN becomes the
      placement, the colour, the castling field and " - 0 1", and is stored
      in the cookie when a cookie name is set; with an invalid one nothing
      changes.
     */
    method FlushFenUpdate()
      requires fenUpdatePending
      modifies this
      ensures !fenUpdatePending
      ensures fenValid ==> fen == Assemble(placementOf(board), Rendered(colorToPlay), castling)
      ensures !fenValid ==> fen == old(fen) && cookie == old(cookie)
      ensures fenValid && Truthy(cookieName) ==> cookie == Some(fen)
      ensures fenValid && !Truthy(cookieName) ==> cookie == old(cookie)
      ensures mode == old(mode) && fenValid == old(fenValid) && colorToPlay == old(colorToPlay)
      ensures castling == old(castling) && board == old(board) && handler == old(handler) && dragStart == old(dragStart)
      ensures lastChanged == old(lastChanged)
    {
      fenUpdatePending := false;
      if fenValid {
        var newFen := placementOf(board) + " " + Rendered(colorToPlay) + " " +
          (if |castling| > 0 then castling else "-") + " - 0 1";
        if newFen != fen {
          fen := newFen;
        }
        if Truthy(cookieName) {
          cookie := Some(fen);
        }
      }
    }

    /** The `colorToPlay` binding's `parse`: schedule a FEN update and take the chosen colour. */
    method SetColorToPlay(value: string)
      modifies this
      ensures colorToPlay == Some(value) && fenUpdatePending
      ensures mode == old(mode) && fen == old(fen) && fenValid == old(fenValid)
      ensures castling == old(castling) && board == old(board) && handler == old(handler) && dragStart == old(dragStart)
      ensures cookie == old(cookie) && lastChanged == old(lastChanged)
    {
      UpdateFen();
      colorToPlay := Some(value);
    }

    /** The `castling` binding: the ticked checkboxes' letters become the list, and a FEN update is scheduled. */
    method SetCastling(value: string)
      modifies this
      ensures castling == value && fenUpdatePending
      ensures mode == old(mode) && fen == old(fen) && fenValid == old(fenValid) && colorToPlay == old(colorToPlay)
      ensures board == old(board) && handler == old(handler) && dragStart == old(dragStart)
      ensures cookie == old(cookie) && lastChanged == old(lastChanged)
    {
      castling := value;
      UpdateFen();
    }

    /** The `switchMode` action of a mode button: the mode becomes the button's `data-mode`. */
    method SelectMode(buttonMode: string)
      modifies this
      ensures mode == buttonMode
      ensures fen == old(fen) && fenValid == old(fenValid) && colorToPlay == old(colorToPlay) && castling == old(castling)
      ensures board == old(board) && handler == old(handler) && dragStart == old(dragStart)
      ensures fenUpdatePending == old(fenUpdatePending) && cookie == old(cookie) && lastChanged == old(lastChanged)
    {
      mode := buttonMode;
    }

    /** `switchMode`: enable the board callback for `toMode`, disabling the others. */
    method SwitchMode(toMode: string)
      modifies this
      ensures handler == HandlerFor(Some(toMode))
      ensures mode == old(mode) && fen == old(fen) && fenValid == old(fenValid) && colorToPlay == old(colorToPlay)
      ensures castling == old(castling) && board == old(board) && dragStart == old(dragStart)
      ensures fenUpdatePending == old(fenUpdatePending) && cookie == old(cookie) && lastChanged == old(lastChanged)
    {
      handler := HandlerFor(Some(toMode));
    }

    /**
      The `mode` binding's callback: a button is marked active exactly when
      its `data-mode` is the mode, then the mode's board callback is enabled.
     */
    method OnModeChange()
      requires Valid()
      modifies this, active
      ensures Valid()
      ensures forall i :: 0 <= i < active.Length ==> (active[i] <==> mode == buttonModes[i])
      ensures handler == HandlerFor(Some(mode))
      ensures mode == old(mode) && fen == old(fen) && fenValid == old(fenValid) && colorToPlay == old(colorToPlay)
      ensures castling == old(castling) && board == old(board) && dragStart == old(dragStart)
      ensures fenUpdatePending == old(fenUpdatePending) && cookie == old(cookie) && lastChanged == old(lastChanged)
    {
      var i := 0;
      while i < active.Length
        invariant 0 <= i <= active.Length
        invariant forall k :: 0 <= k < i ==> (active[k] <==> mode == buttonModes[k])
        modifies active
      {
        active[i] := mode == buttonModes[i];
        i := i + 1;
      }
      SwitchMode(mode);
    }

    /**
      The move-input callback. In move mode a drag start is remembered, a
      drag dropped off the board removes the piece it started from, every
      event schedules a FEN update and the drag goes on; reading the start
      of a drag that never started throws. In erase mode a drag start
      empties its square, schedules a FEN update, and every drag is vetoed.
     */
    method OnMoveInput(event: MoveEvent) returns (reply: Reply)
      requires handler == MoveInput || handler == EraseInput
      modifies this
      ensures handler == MoveInput && event.MoveStart? ==>
                reply == Returned(true) && board == old(board) && fenUpdatePending &&
                dragStart == Some(DragStart(event.square, PieceAt(old(board), event.square)))
      ensures handler == MoveInput && event == MoveCanceled(MovedOutOfBoard) && old(dragStart).None? ==>
                reply == Threw && board == old(board) && fenUpdatePending == old(fenUpdatePending)
      ensures handler == MoveInput && event == MoveCanceled(MovedOutOfBoard) && old(dragStart).Some? ==>
                reply == Returned(true) && board == SetPiece(old(board), old(dragStart).value.square, None) && fenUpdatePending
      ensures handler == MoveInput && !event.MoveStart? && event != MoveCanceled(MovedOutOfBoard) ==>
                reply == Returned(true) && board == old(board) && fenUpdatePending
      ensures handler == EraseInput && event.MoveStart? ==>
                reply == Returned(false) && board == SetPiece(old(board), event.square, None) && fenUpdatePending
      ensures handler == EraseInput && !event.MoveStart? ==>
                reply == Returned(false) && board == old(board) && fenUpdatePending == old(fenUpdatePending)
      ensures !(handler == MoveInput && event.MoveStart?) ==> dragStart == old(dragStart)
      ensures mode == old(mode) && fen == old(fen) && fenValid == old(fenValid) && colorToPlay == old(colorToPlay)
      ensures castling == old(castling) && handler == old(handler) && cookie == old(cookie) && lastChanged == old(lastChanged)
    {
      if handler == MoveInput {
        match event {
          case MoveStart(square) =>
            dragStart := Some(DragStart(square, PieceAt(board, square)));
          case MoveCanceled(MovedOutOfBoard) =>
            if dragStart.None? {
              return Threw;
            }
            board := SetPiece(board, dragStart.value.square, None);
          case _ =>
        }
        UpdateFen();
        reply := Returned(true);
      } else {
        if event.MoveStart? {
          board := SetPiece(board, event.square, None);
          UpdateFen();
        }
        reply := Returned(false);
      }
    }

    /** The board-click callback of a piece mode: the clicked square gets the mode's piece. */
    method OnBoardClick(square: Square)
      requires handler == BoardClick
      modifies this
      ensures board == SetPiece(old(board), square, Some(mode)) && fenUpdatePending
      ensures mode == old(mode) && fen == old(fen) && fenValid == old(fenValid) && colorToPlay == old(colorToPlay)
      ensures castling == old(castling) && handler == old(handler) && dragStart == old(dragStart)
      ensures cookie == old(cookie) && lastChanged == old(lastChanged)
    {
      board := SetPiece(board, square, Some(mode));
      UpdateFen();
    }
  }

  /** "-" holds none of the castling letters, so pruning leaves it alone. */
  lemma PruneFirstDash(board: Board)
    ensures PruneFirst(board, "-") == "-"
  {
    RemoveAbsent("-", 'K');
    RemoveAbsent("-", 'Q');
    RemoveAbsent("-", 'k');
    RemoveAbsent("-", 'q');
  }

  /**
    Reading back an assembled FEN: the colour is the colour written and
    the castling letters are the castling field written ("-" for none).
   */
  lemma ReadBackFields(placement: string, color: string, castling: string)
    requires ' ' !in placement && ' ' !in color && ' ' !in castling
    ensures ColorField(Assemble(placement, color, castling)) == Some(color)
    ensures CastlingOf(Assemble(placement, color, castling)) == Some(CastlingField(castling))
  {
    FieldsRoundTrip(placement, color, castling);
  }

  /**
    A FEN the editor assembled from letters already pruned against the
    board it then shows is a fixed point: reading it back and assembling
    again gives the same text.
   */
  lemma AssembledFenIsStable(placement: string, color: string, castling: string, board: Board)
    requires ' ' !in placement && ' ' !in color && ' ' !in castling
    requires PruneFirst(board, castling) == castling
    ensures var value := Assemble(placement, color, castling);
      CastlingOf(value).Some? &&
      Assemble(placement, Rendered(ColorField(value)), PruneFirst(board, CastlingOf(value).value)) == value
  {
    ReadBackFields(placement, color, castling);
    if castling == "" {
      PruneFirstDash(board);
    }
  }
}
