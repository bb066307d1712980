/** The optional value used for JavaScript's `undefined` results. */
module Wrappers {
  datatype Option<+T> = None | Some(value: T)
}

/**
  The chessboard widget's position, as the editor sees it through
  `getPiece` and `setPiece`: every occupied square name ("e1", "h8")
  maps to a piece name ("wk", "br"); an empty square has no entry,
  which is what `getPiece` reports as `undefined`.
 */
module Position {
  import opened Wrappers

  type Square = string

  type Board = map<Square, string>

  /** The board widget's `getPiece(square)`. */
  function PieceAt(board: Board, square: Square): Option<string> {
    if square in board then Some(board[square]) else None
  }

  /** The board widget's `setPiece(square, piece)`; `None` stands for `null`, which empties the square. */
  function SetPiece(board: Board, square: Square, piece: Option<string>): (r: Board)
    ensures PieceAt(r, square) == piece
    ensures forall s :: s != square ==> PieceAt(r, s) == PieceAt(board, s)
  {
    match piece
    case Some(p) => board[square := p]
    case None => board - {square}
  }
}
