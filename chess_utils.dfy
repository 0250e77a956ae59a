/** The client-side helpers of lib/chess-utils.ts: near-copies of the coaching
    route's helpers, working on a loaded board instead of a FEN string. Each is
    shown to agree with its counterpart in `ChessRoute`, and the one place where
    they part ways is pinned down. */
module ChessUtils {
  import opened Wrappers
  import opened JsText
  import opened ChessOracle
  import opened ChessRoute

  /** `getMoveDescription` (lines 25-47) on the occupied squares `b` of a board: the
      castling test and the king test are one conjunction here. */
  function MoveDescription(b: map<string, Piece>, move: string): (r: string)
    ensures Classifies(b, move, r)
  {
    var from, to := FromSquare(move), ToSquare(move);
    if from !in b then UnknownMove
    else
      var pieceType := [UpperLetter(b[from].kind)];
      TextsDiffer(UpperLetter(if to in b then b[to].kind else King), pieceType[0]);
      if IsCastlingCode(move) && pieceType == "K" then CastlingText
      else if to in b then CapturePrefix + [UpperLetter(b[to].kind)] + " with " + pieceType
      else PlainPrefix + pieceType
  }

  /** Two texts that both classify the same move on the same board are the same
      text: `Classifies` pins the description down completely. */
  lemma {:induction false} ClassifiesIsUnique(b: map<string, Piece>, move: string, x: string, y: string)
    requires Classifies(b, move, x) && Classifies(b, move, y)
    ensures x == y
  {
    var from := FromSquare(move);
    if from in b {
      TextsDiffer(UpperLetter(b[from].kind), UpperLetter(b[from].kind));
      var to := ToSquare(move);
      if to in b {
        TextsDiffer(UpperLetter(b[to].kind), UpperLetter(b[from].kind));
      }
    }
  }

  /** `getMoveDescription` gives the text `getMoveType` gives for any FEN that loads
      to a board with the same pieces on the same squares; a FEN that does not load
      makes `getMoveType` throw instead. */
  lemma MoveDescriptionAgrees(o: Oracle, board: Position, fen: string, move: string)
    ensures o.load(fen).None? ==> MoveType(o, fen, move).None?
    ensures o.load(fen).Some? && o.pieces(o.load(fen).value) == o.pieces(board) ==>
      MoveType(o, fen, move) == Some(MoveDescription(o.pieces(board), move))
  {
    if o.load(fen).Some? && o.pieces(o.load(fen).value) == o.pieces(board) {
      var b := o.pieces(board);
      ClassifiesIsUnique(b, move, MoveType(o, fen, move).value, MoveDescription(b, move));
    }
  }

  /** In particular, describing a move on a board and on that board's own FEN give
      the same text whenever the FEN reloads to the same pieces. */
  lemma MoveDescriptionOnOwnFen(o: Oracle, board: Position, move: string)
    requires o.load(o.fen(board)).Some? && o.pieces(o.load(o.fen(board)).value) == o.pieces(board)
    ensures MoveType(o, o.fen(board), move) == Some(MoveDescription(o.pieces(board), move))
  {
    MoveDescriptionAgrees(o, board, o.fen(board), move);
  }

  /** One of the four castling codes played by a piece that is not a king is
      described as a capture or a plain move, never as castling. */
  lemma NonKingCastlingCodeFallsThrough(b: map<string, Piece>, move: string)
    requires IsCastlingCode(move) && FromSquare(move) in b && b[FromSquare(move)].kind != King
    ensures MoveDescription(b, move) != CastlingText
    ensures ToSquare(move) in b ==> StartsWith(MoveDescription(b, move), CapturePrefix)
    ensures ToSquare(move) !in b ==> MoveDescription(b, move) == PlainPrefix + [UpperLetter(b[FromSquare(move)].kind)]
  {
  }

  /** An empty from-square gives `Unknown move` whatever stands on the to-square. */
  lemma EmptyFromSquareIsUnknown(b: map<string, Piece>, move: string)
    requires FromSquare(move) !in b
    ensures MoveDescription(b, move) == UnknownMove
  {
  }

  /** `getEvaluationString` (lines 49-57): the same cases as `getEvalString`, with
      the `else` replaced by a fall-through. */
  function EvaluationString(evaluation: real, mate: Option<int>, show: real -> string): (r: string)
    ensures r == EvalString(evaluation, mate, show)
  {
    if mate.None? then
      var side := if evaluation >= 0.0 then " pawn advantage for white" else " pawn advantage for black";
      show(AbsReal(evaluation)) + side
    else
      var side := if mate.value > 0 then " moves for White" else " moves for Black";
      "Mate in " + NatToString(Abs(mate.value)) + side
  }

  /** `getStockfishMove` (lines 3-23) after the fetch: `None` when the request or the
      JSON decoding failed, when `success` is false, or when `bestmove` is falsy
      (absent or the empty string); otherwise the move is the second token. */
  function StockfishMove(reply: Option<EngineReply>): (r: Option<EngineInfo>)
    ensures r.Some? <==> reply.Some? && reply.value.success && reply.value.bestmove.Some?
                         && reply.value.bestmove.value != ""
    ensures r.Some? ==> r.value.bestMove == SecondToken(reply.value.bestmove.value)
    ensures r.Some? ==> r.value.evaluation == reply.value.evaluation && r.value.mate == reply.value.mate
  {
    match reply
    case None => None
    case Some(data) =>
      if !data.success then None
      else if data.bestmove.None? || data.bestmove.value == "" then None
      else Some(EngineInfo(SecondToken(data.bestmove.value), data.evaluation, data.mate))
  }

  /** The two engine helpers agree on every reply whose `bestmove` is not the empty
      string. */
  lemma StockfishHelpersAgree(reply: Option<EngineReply>)
    requires reply.Some? && reply.value.bestmove.Some? ==> reply.value.bestmove.value != ""
    ensures StockfishMove(reply) == StockfishInfo(reply)
  {
  }

  /** On an empty `bestmove` they part ways: the route's helper splits it and finds no
      second token, so its move is `undefined`, while the client's helper throws. */
  lemma StockfishHelpersDifferOnEmpty(evaluation: real, mate: Option<int>)
    ensures var reply := Some(EngineReply(true, Some(""), evaluation, mate));
      && StockfishMove(reply).None?
      && StockfishInfo(reply) == Some(EngineInfo(None, evaluation, mate))
  {
    assert Split("", ' ') == [[]];
  }

  /** The body `analyzeMoveWithAI` (lines 59-76) posts to the coaching route: its type
      is `analyze`, which the route does not serve. The `evaluation` it also sends is
      not read by the route. */
  function AnalyzeMoveRequest(fen: string, move: string): (req: ChessRequest)
    ensures req.fen == fen && req.move == Some(move)
    ensures KindOf(req.kind).None?
  {
    ChessRequest(Some("analyze"), fen, Some(move))
  }

  /** As written, asking for an analysis of a move always gets the 400 answer,
      whatever the board, the engine and the language model say. */
  lemma AnalyzeRequestRejected(o: Oracle, fen: string, move: string, e: Option<EngineReply>,
                               c: Completion, show: real -> string)
    ensures Handle(o, AnalyzeMoveRequest(fen, move), e, c, show) == Failure(400, InvalidType)
  {
  }

  /** The body with the type the route serves for an analysis, `analyze AI`. */
  function AnalyzeMoveRequestFixed(fen: string, move: string): (req: ChessRequest)
    ensures req.fen == fen && req.move == Some(move)
    ensures KindOf(req.kind) == Some(AnalyzeAi)
  {
    ChessRequest(Some("analyze AI"), fen, Some(move))
  }

  /** With the served type the route answers with an analysis exactly when the engine
      names a best move the board can describe and the language model answers. */
  lemma AnalyzeRequestFixedServed(o: Oracle, fen: string, move: string, e: Option<EngineReply>,
                                  c: Completion, show: real -> string)
    ensures var r := Handle(o, AnalyzeMoveRequestFixed(fen, move), e, c, show);
      && (r.Ok? <==> && StockfishInfo(e).Some? && StockfishInfo(e).value.bestMove.Some?
                     && MoveType(o, fen, StockfishInfo(e).value.bestMove.value).Some? && c.Message?)
      && (r.Ok? ==> r.body.Analysis? && r.body.analysis == Reply(c))
  {
  }

  /** The body `userMoveAssessment` (lines 78-95) posts: a type the route serves. */
  function AssessmentRequest(fen: string, move: string): (req: ChessRequest)
    ensures req.fen == fen && req.move == Some(move)
    ensures KindOf(req.kind) == Some(AssessUser)
  {
    ChessRequest(Some("assessment user"), fen, Some(move))
  }
}
