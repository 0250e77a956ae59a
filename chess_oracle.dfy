/** The chess-rules library the routes call (chess.js), seen only through what they
    ask of it. A board is an opaque `Position`; the library is a record of total
    functions, so every property proved about the routes holds for every rules
    engine that answers these questions. */
module ChessOracle {
  import opened Wrappers
  import opened JsText

  /** A loaded chess.js board. Nothing about its contents is assumed. */
  type Position

  /** A square name as chess.js writes it: a file letter and a rank digit. */
  predicate IsSquare(s: string) {
    |s| == 2 && 'a' <= s[0] <= 'h' && '1' <= s[1] <= '8'
  }

  type Square = s: string | IsSquare(s) witness "a1"

  datatype PieceType = Pawn | Knight | Bishop | Rook | Queen | King

  datatype Color = White | Black

  datatype Piece = Piece(kind: PieceType, color: Color)

  /** The lower-case letter chess.js stores as a piece's `type`. */
  function TypeLetter(k: PieceType): char
  {
    match k
    case Pawn => 'p'
    case Knight => 'n'
    case Bishop => 'b'
    case Rook => 'r'
    case Queen => 'q'
    case King => 'k'
  }

  /** `piece.type.toUpperCase()`: the upper-case letter of a piece type; it is `K`
      exactly for the king, and tells the six types apart. */
  function UpperLetter(k: PieceType): (c: char)
    ensures c == 'K' <==> k == King
    ensures forall j: PieceType :: UpperChar(TypeLetter(j)) == c ==> j == k
  {
    UpperChar(TypeLetter(k))
  }

  /** One entry of `board.moves({ verbose: true })`, reduced to the two fields the
      routes read. */
  datatype LegalMove = LegalMove(from: Square, to: Square)

  /** The chess.js operations the routes use:
      - `load(fen)`: `new Chess(fen)`; `None` when the constructor throws on a bad FEN;
      - `fen(p)`: `board.fen()`;
      - `moves(p)`: `board.moves({ verbose: true })`;
      - `move(p, m)`: `board.move(m)`; `None` when chess.js rejects the move;
      - `pieces(p)`: the occupied squares, so `board.get(sq)` is falsy exactly when
        `sq` is not a key. */
  datatype Oracle = Oracle(
    load: string -> Option<Position>,
    fen: Position -> string,
    moves: Position -> seq<LegalMove>,
    move: (Position, string) -> Option<Position>,
    pieces: Position -> map<string, Piece>)
}
