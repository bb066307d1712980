/**
  The first revision of the editor (src/FenEditor.js): the castling list of
  the observed FEN record is pruned against the board with a table of home
  squares, the four castling checkboxes write the list in K, Q, k, q order,
  and a valid record shows its list back in the checkboxes.

  The record's other fields, its parsing and printing, the validity check
  and the board widget belong to foreign libraries: the board arrives as a
  `Board` value, validity as the `accepts` predicate.
 */
module ObservedEditor {
  import opened Wrappers
  import opened Position
  import opened Castling
  import opened EditModes

  /**
    `setFenFromUrlOrCookie`: the URL's `fen` parameter if it is a non-empty
    string, else the cookie if a cookie name is set and the cookie is a
    non-empty string, else the default record.
   */
  function StartFen(url: Option<string>, cookieName: Option<string>, cookie: Option<string>, propsFen: string): (r: string)
    ensures Truthy(url) ==> r == url.value
    ensures !Truthy(url) && Truthy(cookieName) && Truthy(cookie) ==> r == cookie.value
    ensures !Truthy(url) && !(Truthy(cookieName) && Truthy(cookie)) ==> r == propsFen
  {
    if Truthy(url) then url.value
    else if Truthy(cookieName) && Truthy(cookie) then cookie.value
    else propsFen
  }

  class Editor {
    /** The board widget's position. */
    var board: Board
    /** `state.fen.castlings`. */
    var castlings: string
    /** `state.fenIsValid`. */
    var fenIsValid: bool
    /** The checkboxes `.checkbox-castle-wk`, `-wq`, `-bk`, `-bq`. */
    var wk: bool
    var wq: bool
    var bk: bool
    var bq: bool
    /** `new Chess(text)` succeeds. */
    const accepts: string -> bool

    /**
      The editor starts on an empty board with the default record's castling
      letters; the checkboxes keep the ticks the page gave them.
     */
    constructor(accepts: string -> bool, castlings: string, wk: bool, wq: bool, bk: bool, bq: bool)
      ensures this.accepts == accepts && this.castlings == castlings
      ensures board == map[] && fenIsValid
      ensures this.wk == wk && this.wq == wq && this.bk == bk && this.bq == bq
    {
      this.accepts := accepts;
      this.castlings := castlings;
      board := map[];
      fenIsValid := true;
      this.wk, this.wq, this.bk, this.bq := wk, wq, bk, bq;
    }

    /**
      `removeNotAllowedCastlings`: for each row of the table whose square
      does not hold its piece, filter each of its letters out of the list.
     */
    method RemoveNotAllowedCastlings()
      modifies this
      ensures castlings == Prune(board, old(castlings))
      ensures board == old(board) && fenIsValid == old(fenIsValid)
      ensures wk == old(wk) && wq == old(wq) && bk == old(bk) && bq == old(bq)
    {
      WithoutNothing(castlings);
      var i := 0;
      while i < |Rules|
        invariant 0 <= i <= |Rules|
        invariant castlings == Without(old(castlings), BrokenUpTo(board, i))
        invariant board == old(board) && fenIsValid == old(fenIsValid)
        invariant wk == old(wk) && wq == old(wq) && bk == old(bk) && bq == old(bq)
      {
        if PieceAt(board, Rules[i].square) != Some(Rules[i].piece) {
          WithoutWithout(old(castlings), BrokenUpTo(board, i), LetterSet(Rules[i].letters));
          FilterLetters(Rules[i].letters);
          assert BrokenUpTo(board, i + 1) == BrokenUpTo(board, i) + LetterSet(Rules[i].letters);
        } else {
          assert BrokenUpTo(board, i + 1) == BrokenUpTo(board, i);
        }
        i := i + 1;
      }
      assert BrokenUpTo(board, |Rules|) == BrokenLetters(board) by {
        TableLetters(board);
      }
    }

    /** The `forEach` over one row's letters: each is filtered out of the list in turn. */
    method FilterLetters(letters: string)
      modifies this
      ensures castlings == Without(old(castlings), LetterSet(letters))
      ensures board == old(board) && fenIsValid == old(fenIsValid)
      ensures wk == old(wk) && wq == old(wq) && bk == old(bk) && bq == old(bq)
    {
      WithoutNothing(castlings);
      assert LetterSet(letters[..0]) == {};
      var j := 0;
      while j < |letters|
        invariant 0 <= j <= |letters|
        invariant castlings == Without(old(castlings), LetterSet(letters[..j]))
        invariant board == old(board) && fenIsValid == old(fenIsValid)
        invariant wk == old(wk) && wq == old(wq) && bk == old(bk) && bq == old(bq)
      {
        WithoutWithout(old(castlings), LetterSet(letters[..j]), {letters[j]});
        castlings := Without(castlings, {letters[j]});
        assert LetterSet(letters[..j + 1]) == LetterSet(letters[..j]) + {letters[j]} by {
          assert letters[..j + 1] == letters[..j] + [letters[j]];
        }
        j := j + 1;
      }
      assert letters[..|letters|] == letters;
    }

    /**
      `setCastleState`: rebuild the list from the four checkboxes in the
      order K, Q, k, q, then prune it.
     */
    method SetCastleState()
      modifies this
      ensures castlings == Prune(board, FromCheckboxes(wk, wq, bk, bq))
      ensures board == old(board) && fenIsValid == old(fenIsValid)
      ensures wk == old(wk) && wq == old(wq) && bk == old(bk) && bq == old(bq)
    {
      castlings := [];
      if wk {
        castlings := castlings + ['K'];
      }
      if wq {
        castlings := castlings + ['Q'];
      }
      if bk {
        castlings := castlings + ['k'];
      }
      if bq {
        castlings := castlings + ['q'];
      }
      assert castlings == FromCheckboxes(wk, wq, bk, bq);
      RemoveNotAllowedCastlings();
    }

    /**
      The position editor's `onPositionChange`: the board takes the edited
      position and the list is pruned against it.
     */
    method OnPositionChange(position: Board)
      modifies this
      ensures board == position
      ensures castlings == Prune(position, old(castlings))
      ensures fenIsValid == old(fenIsValid)
      ensures wk == old(wk) && wq == old(wq) && bk == old(bk) && bq == old(bq)
    {
      board := position;
      RemoveNotAllowedCastlings();
    }

    /**
      `updateValidState`, once the board shows the record's position: prune
      the list, then tick each checkbox exactly when its letter is listed.
     */
    method UpdateValidState(position: Board)
      modifies this
      ensures board == position
      ensures castlings == Prune(position, old(castlings))
      ensures wk == ('K' in castlings) && wq == ('Q' in castlings)
      ensures bk == ('k' in castlings) && bq == ('q' in castlings)
      ensures fenIsValid == old(fenIsValid)
    {
      board := position;
      RemoveNotAllowedCastlings();
      wk := 'K' in castlings;
      wq := 'Q' in castlings;
      bk := 'k' in castlings;
      bq := 'q' in castlings;
    }

    /**
      `onFenChange`: the record `text` is checked; a valid one is shown on
      `position` and reported, an invalid one is reported as `null` (`None`).
     */
    method OnFenChange(text: string, position: Board) returns (reported: Option<string>)
      modifies this
      ensures fenIsValid == accepts(text)
      ensures reported == if accepts(text) then Some(text) else None
      ensures accepts(text) ==> board == position && castlings == Prune(position, old(castlings))
      ensures accepts(text) ==> wk == ('K' in castlings) && wq == ('Q' in castlings)
      ensures accepts(text) ==> bk == ('k' in castlings) && bq == ('q' in castlings)
      ensures !accepts(text) ==> board == old(board) && castlings == old(castlings)
      ensures !accepts(text) ==> wk == old(wk) && wq == old(wq) && bk == old(bk) && bq == old(bq)
    {
      fenIsValid := accepts(text);
      if fenIsValid {
        UpdateValidState(position);
        reported := Some(text);
      } else {
        reported := None;
      }
    }
  }

  /**
    Round trip through the checkboxes: after `updateValidState` shows an
    already pruned, duplicate-free subsequence of "KQkq", `setCastleState`
    on the same board writes back the same list.
   */
  method CheckboxRoundTrip(e: Editor, position: Board)
    requires IsSubsequence(e.castlings, AllLetters) && Prune(position, e.castlings) == e.castlings
    modifies e
    ensures e.castlings == old(e.castlings)
  {
    e.UpdateValidState(position);
    e.SetCastleState();
    CheckboxesRebuildList(old(e.castlings));
  }
}
