/**
  The panel revision of the editor (src/cm-fen-editor/FenEditor.js). The
  FEN lives in a text field and a select. The colour to play and the
  castling rights live in a colour select and a row of checkboxes, each
  checkbox carrying its letter as its value. A FEN update writes the
  board's placement, the colour, the ticked letters (or "-") and " - 0 1";
  a FEN change reads the board, the colour and the ticks back from the text.

  The board widget is outside the model: `boardOf` is the position it
  shows for a placement and `placementOf` the placement it reports.
 */
module PanelEditor {
  import opened Wrappers
  import opened Position
  import opened FenText
  import opened EditModes

  /** The values of the ticked checkboxes, concatenated in checkbox order. */
  function CheckedConcat(values: seq<string>, ticks: seq<bool>): string
    requires |values| == |ticks|
  {
    if |values| == 0 then ""
    else CheckedConcat(values[..|values| - 1], ticks[..|ticks| - 1]) + (if ticks[|ticks| - 1] then values[|values| - 1] else "")
  }

  /** A character is in the concatenation exactly when some ticked value holds it. */
  lemma {:induction false} CheckedConcatMember(values: seq<string>, ticks: seq<bool>, c: char)
    requires |values| == |ticks|
    ensures c in CheckedConcat(values, ticks) <==> exists j :: 0 <= j < |values| && ticks[j] && c in values[j]
  {
    if |values| > 0 {
      var n := |values| - 1;
      CheckedConcatMember(values[..n], ticks[..n], c);
      if exists j :: 0 <= j < |values| && ticks[j] && c in values[j] {
        var j :| 0 <= j < |values| && ticks[j] && c in values[j];
        if j < n {
          assert values[..n][j] == values[j] && ticks[..n][j] == ticks[j];
        }
      }
      if exists j :: 0 <= j < n && ticks[..n][j] && c in values[..n][j] {
        var j :| 0 <= j < n && ticks[..n][j] && c in values[..n][j];
        assert ticks[j] && c in values[j];
      }
    }
  }

  /** Values that are single letters, none of them "-" or " ", and no two alike. */
  predicate DistinctLetters(values: seq<string>) {
    (forall i :: 0 <= i < |values| ==> |values[i]| == 1 && values[i][0] != '-' && values[i][0] != ' ') &&
    (forall i, j :: 0 <= i < j < |values| ==> values[i] != values[j])
  }

  /**
    With distinct single-letter values, the castling field the update writes
    contains the value of checkbox `i` exactly when that box is ticked.
   */
  lemma FieldShowsTick(values: seq<string>, ticks: seq<bool>, i: nat)
    requires |values| == |ticks| && DistinctLetters(values) && i < |values|
    ensures Contains(CastlingField(CheckedConcat(values, ticks)), values[i]) <==> ticks[i]
  {
    var c := values[i][0];
    assert values[i] == [c];
    var k := CheckedConcat(values, ticks);
    CheckedConcatMember(values, ticks, c);
    ContainsLetter(CastlingField(k), c);
    if ticks[i] {
      assert c in values[i];
    }
    if c in k {
      var j :| 0 <= j < |values| && ticks[j] && c in values[j];
      assert values[j] == [values[j][0]];
      if j != i {
        if j < i {
          assert values[j] != values[i];
        } else {
          assert values[i] != values[j];
        }
      }
    }
  }

  /** No value of the given kind contains a space, so neither does their concatenation. */
  lemma NoSpaceInConcat(values: seq<string>, ticks: seq<bool>)
    requires |values| == |ticks| && DistinctLetters(values)
    ensures ' ' !in CheckedConcat(values, ticks)
  {
    CheckedConcatMember(values, ticks, ' ');
    forall j | 0 <= j < |values|
      ensures ' ' !in values[j]
    {
      assert values[j] == [values[j][0]];
    }
  }

  /**
    Round trip: for distinct single-letter checkbox values, splitting the
    FEN the update assembles gives back the colour in the second field and,
    in the third, exactly the ticked boxes' letters.
   */
  lemma PanelRoundTrip(placement: string, color: string, values: seq<string>, ticks: seq<bool>)
    requires |values| == |ticks| && DistinctLetters(values)
    requires ' ' !in placement && ' ' !in color
    ensures var parts := Split(Assemble(placement, color, CheckedConcat(values, ticks)), ' ');
      |parts| >= 3 && parts[1] == color &&
      forall i :: 0 <= i < |values| ==> (Contains(parts[2], values[i]) <==> ticks[i])
  {
    var k := CheckedConcat(values, ticks);
    NoSpaceInConcat(values, ticks);
    FieldsRoundTrip(placement, color, k);
    forall i | 0 <= i < |values|
      ensures Contains(CastlingField(k), values[i]) <==> ticks[i]
    {
      FieldShowsTick(values, ticks, i);
    }
  }

  class Editor {
    /** `this.state`: the current mode, `undefined` before the first one and after an unknown button. */
    var state: Option<string>
    /** `element.dataset.state`. */
    var datasetState: string
    /** The callback `action` enabled on the board. */
    var handler: Handler
    /** The board widget's position. */
    var board: Board
    /** The colour select's value. */
    var colorSelect: string
    /** The FEN text field. */
    var fenText: string
    /** The position select's value. */
    var positionSelect: string
    /** `moveStartEvent`: where the current drag began. */
    var dragStart: Option<DragStart>
    /** A FEN update is scheduled. */
    var fenUpdatePending: bool

    /** `props.fen`. */
    const propsFen: string
    /** Each castling checkbox's value, in document order. */
    const checkboxValues: seq<string>
    /** Whether each castling checkbox is ticked. */
    const checked: array<bool>
    /** Each button's `data-state` attribute, in document order. */
    const buttonStates: seq<string>
    /** Whether each button carries the class "active". */
    const active: array<bool>
    /** `chessboard.setPosition(placement)`. */
    const boardOf: string -> Board
    /** `chessboard.getPosition()`. */
    const placementOf: Board -> string

    predicate Valid()
      reads this
    {
      checked.Length == |checkboxValues| && active.Length == |buttonStates| && checked != active
    }

    /**
      The constructor: the board shows `props.fen`, then `setState("move")`
      runs on the undefined state. The colour select, the checkboxes' ticks,
      the FEN text field and the position select keep what the page gave them.
     */
    constructor(boardOf: string -> Board, placementOf: Board -> string, propsFen: string, colorSelect: string,
                checkboxValues: seq<string>, ticks: seq<bool>, fenText: string, positionSelect: string,
                buttonStates: seq<string>)
      requires |ticks| == |checkboxValues|
      ensures Valid() && fresh(checked) && fresh(active)
      ensures this.boardOf == boardOf && this.placementOf == placementOf && this.propsFen == propsFen
      ensures this.checkboxValues == checkboxValues && this.buttonStates == buttonStates
      ensures board == boardOf(propsFen) && this.colorSelect == colorSelect
      ensures state == Some("move") && datasetState == "move" && handler == MoveInput && fenUpdatePending
      ensures forall i :: 0 <= i < active.Length ==> (active[i] <==> Lookup(buttonStates[i]) == Some("move"))
      ensures checked[..] == ticks && this.fenText == fenText && this.positionSelect == positionSelect
    {
      this.boardOf := boardOf;
      this.placementOf := placementOf;
      this.propsFen := propsFen;
      this.colorSelect := colorSelect;
      this.checkboxValues := checkboxValues;
      this.buttonStates := buttonStates;
      checked := new bool[|checkboxValues|](i requires 0 <= i < |ticks| => ticks[i]);
      active := new bool[|buttonStates|];
      board := boardOf(propsFen);
      state := None;
      datasetState := "";
      handler := NoInput;
      this.fenText := fenText;
      this.positionSelect := positionSelect;
      dragStart := None;
      fenUpdatePending := false;
      new;
      SetState(Some("move"));
    }

    /**
      `setState`: the element's `data-state` always shows the new state; a
      state different from the current one is recorded, its board callback
      enabled, the buttons updated and a FEN update scheduled, while the
      same state again changes nothing else.
     */
    method SetState(newState: Option<string>)
      requires Valid()
      modifies this, active
      ensures Valid()
      ensures datasetState == Rendered(newState)
      ensures old(state) == newState ==>
                handler == old(handler) && fenUpdatePending == old(fenUpdatePending) && active[..] == old(active[..])
      ensures old(state) != newState ==>
                handler == HandlerFor(newState) && fenUpdatePending &&
                forall i :: 0 <= i < active.Length ==> (active[i] <==> newState == Lookup(buttonStates[i]))
      ensures state == newState
      ensures board == old(board) && colorSelect == old(colorSelect) && fenText == old(fenText)
      ensures positionSelect == old(positionSelect) && dragStart == old(dragStart)
    {
      datasetState := Rendered(newState);
      if state != newState {
        state := newState;
        handler := HandlerFor(newState);
        UpdateButtons();
        UpdateFen();
      }
    }

    /** `updateButtons`: a button is active exactly when its `data-state` maps to the current state. */
    method UpdateButtons()
      requires Valid()
      modifies active
      ensures forall i :: 0 <= i < active.Length ==> (active[i] <==> state == Lookup(buttonStates[i]))
    {
      var i := 0;
      while i < active.Length
        invariant 0 <= i <= active.Length
        invariant forall k :: 0 <= k < i ==> (active[k] <==> state == Lookup(buttonStates[k]))
      {
        active[i] := state == Lookup(buttonStates[i]);
        i := i + 1;
      }
    }

    /** `updateFen`: schedule a FEN update. */
    method UpdateFen()
      modifies this
      ensures fenUpdatePending
      ensures state == old(state) && datasetState == old(datasetState) && handler == old(handler)
      ensures board == old(board) && colorSelect == old(colorSelect) && fenText == old(fenText)
      ensures positionSelect == old(positionSelect) && dragStart == old(dragStart)
    {
      fenUpdatePending := true;
    }

    /**
      The scheduled FEN update runs: the text field and the position select
      both get the placement, the colour, the ticked values concatenated in
      checkbox order (or "-" when none is ticked) and " - 0 1".
     */
    method FlushFenUpdate()
      requires Valid() && fenUpdatePending
      modifies this
      ensures !fenUpdatePending
      ensures fenText == Assemble(placementOf(board), colorSelect, CheckedConcat(checkboxValues, checked[..]))
      ensures positionSelect == fenText
      ensures state == old(state) && datasetState == old(datasetState) && handler == old(handler)
      ensures board == old(board) && colorSelect == old(colorSelect) && dragStart == old(dragStart)
    {
      fenUpdatePending := false;
      var fen := placementOf(board) + " " + colorSelect;
      var castling := "";
      var i := 0;
      while i < checked.Length
        invariant 0 <= i <= checked.Length
        invariant castling == CheckedConcat(checkboxValues[..i], checked[..i])
      {
        assert checkboxValues[..i + 1][..i] == checkboxValues[..i];
        assert checked[..i + 1][..i] == checked[..i];
        if checked[i] {
          castling := castling + checkboxValues[i];
        }
        i := i + 1;
      }
      assert checkboxValues[..i] == checkboxValues && checked[..i] == checked[..];
      if castling == "" {
        castling := "-";
      }
      fen := fen + " " + castling + " - 0 1";
      fenText := fen;
      positionSelect := fen;
    }

    /**
      `fenChanged`: the board shows the first field and the colour select
      takes the second (empty when missing). Each checkbox is then ticked
      exactly when its value occurs in the third field, and the position
      select shows the text. With no third field the first checkbox throws
      (`ok` is false) before any tick changes.
     */
    method FenChanged() returns (ok: bool)
      requires Valid()
      modifies this, checked
      ensures Valid()
      ensures var parts := Split(old(fenText), ' ');
        board == boardOf(parts[0]) &&
        colorSelect == (if |parts| >= 2 then parts[1] else "") &&
        (ok <==> |parts| >= 3 || checked.Length == 0) &&
        (ok ==> positionSelect == old(fenText) &&
                forall i :: 0 <= i < checked.Length ==> (checked[i] <==> Contains(parts[2], checkboxValues[i]))) &&
        (!ok ==> positionSelect == old(positionSelect) && checked[..] == old(checked[..]))
      ensures fenText == old(fenText) && state == old(state) && datasetState == old(datasetState)
      ensures handler == old(handler) && dragStart == old(dragStart) && fenUpdatePending == old(fenUpdatePending)
    {
      var fen := fenText;
      var parts := Split(fen, ' ');
      board := boardOf(parts[0]);
      colorSelect := if |parts| >= 2 then parts[1] else "";
      if |parts| < 3 && checked.Length > 0 {
        return false;
      }
      var i := 0;
      while i < checked.Length
        invariant 0 <= i <= checked.Length
        invariant forall k :: 0 <= k < i ==> (checked[k] <==> Contains(parts[2], checkboxValues[k]))
        modifies checked
      {
        checked[i] := Contains(parts[2], checkboxValues[i]);
        i := i + 1;
      }
      positionSelect := fen;
      ok := true;
    }

    /** Typing in the FEN field: the text changes, then `fenChanged` runs. */
    method OnFenInput(value: string) returns (ok: bool)
      requires Valid()
      modifies this, checked
      ensures Valid() && fenText == value
      ensures var parts := Split(value, ' ');
        board == boardOf(parts[0]) &&
        colorSelect == (if |parts| >= 2 then parts[1] else "") &&
        (ok <==> |parts| >= 3 || checked.Length == 0) &&
        (ok ==> positionSelect == value &&
                forall i :: 0 <= i < checked.Length ==> (checked[i] <==> Contains(parts[2], checkboxValues[i]))) &&
        (!ok ==> positionSelect == old(positionSelect) && checked[..] == old(checked[..]))
      ensures state == old(state) && datasetState == old(datasetState) && handler == old(handler)
      ensures dragStart == old(dragStart) && fenUpdatePending == old(fenUpdatePending)
    {
      fenText := value;
      ok := FenChanged();
    }

    /**
      The move-input callback of move mode: a drag start is remembered, any
      canceled drag removes the piece it started from, every event schedules
      a FEN update and the drag goes on; a cancel with no drag start throws.
      In erase mode a drag start empties only its square and schedules a FEN
      update, and every drag is vetoed.
     */
    method OnMoveInput(event: MoveEvent) returns (reply: Reply)
      requires handler == MoveInput || handler == EraseInput
      modifies this
      ensures handler == MoveInput && event.MoveStart? ==>
                reply == Returned(true) && board == old(board) && fenUpdatePending &&
                dragStart == Some(DragStart(event.square, PieceAt(old(board), event.square)))
      ensures handler == MoveInput && event.MoveCanceled? && old(dragStart).None? ==>
                reply == Threw && board == old(board) && fenUpdatePending == old(fenUpdatePending)
      ensures handler == MoveInput && event.MoveCanceled? && old(dragStart).Some? ==>
                reply == Returned(true) && board == SetPiece(old(board), old(dragStart).value.square, None) && fenUpdatePending
      ensures handler == MoveInput && event.MoveDone? ==> reply == Returned(true) && board == old(board) && fenUpdatePending
      ensures handler == EraseInput && event.MoveStart? ==>
                reply == Returned(false) && board == SetPiece(old(board), event.square, None) && fenUpdatePending
      ensures handler == EraseInput && !event.MoveStart? ==>
                reply == Returned(false) && board == old(board) && fenUpdatePending == old(fenUpdatePending)
      ensures !(handler == MoveInput && event.MoveStart?) ==> dragStart == old(dragStart)
      ensures state == old(state) && datasetState == old(datasetState) && handler == old(handler)
      ensures colorSelect == old(colorSelect) && fenText == old(fenText) && positionSelect == old(positionSelect)
    {
      if handler == MoveInput {
        match event {
          case MoveStart(square) =>
            dragStart := Some(DragStart(square, PieceAt(board, square)));
          case MoveCanceled(_) =>
            if dragStart.None? {
              return Threw;
            }
            board := SetPiece(board, dragStart.value.square, None);
          case MoveDone(_, _) =>
        }
        UpdateFen();
        reply := Returned(true);
      } else {
        if event.MoveStart? {
          board := SetPiece(board, event.square, None);
          UpdateFen();
        }
        reply := Returned(false);
      }
    }

    /**
      The board-click callback of a piece mode: the clicked square gets the
      current state's piece, or is emptied when the state is undefined.
     */
    method OnBoardClick(square: Square)
      requires handler == BoardClick
      modifies this
      ensures board == SetPiece(old(board), square, state) && fenUpdatePending
      ensures state == old(state) && datasetState == old(datasetState) && handler == old(handler)
      ensures colorSelect == old(colorSelect) && fenText == old(fenText) && positionSelect == old(positionSelect)
      ensures dragStart == old(dragStart)
    {
      board := SetPiece(board, square, state);
      UpdateFen();
    }
  }

  /**
    The round trip on the editor itself: with distinct single-letter
    checkbox values and a colour and placement without spaces, a FEN update
    followed by `fenChanged` leaves the ticks and the colour as they were.
   */
  method UpdateThenRead(e: Editor) returns (ok: bool)
    requires e.Valid() && e.fenUpdatePending && DistinctLetters(e.checkboxValues)
    requires ' ' !in e.colorSelect && ' ' !in e.placementOf(e.board)
    modifies e, e.checked
    ensures ok && e.colorSelect == old(e.colorSelect) && e.checked[..] == old(e.checked[..])
  {
    ghost var ticks := e.checked[..];
    e.FlushFenUpdate();
    PanelRoundTrip(e.placementOf(old(e.board)), e.colorSelect, e.checkboxValues, ticks);
    ok := e.FenChanged();
    assert e.checked[..] == ticks;
  }
}
