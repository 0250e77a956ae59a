/** The coaching endpoint (app/api/chess/route.ts): it asks the remote engine for
    the best move and evaluation of a position, describes a move in words, has the
    language model comment on it, and strips the model's `<think>…</think>`
    reasoning from the reply. Only the local shaping of those answers is modelled;
    the engine reply and the model's completion are parameters. */
module ChessRoute {
  import opened Wrappers
  import opened JsText
  import opened ChessOracle

  // ---------------------------------------------------------------------------
  // clean: response.replace(/<think>.*?<\/think>/g, "")

  const OpenTag := "<think>"
  const CloseTag := "</think>"

  /** The characters a regular-expression `.` does not match. */
  predicate IsLineTerminator(c: char) {
    c == '\n' || c == '\r' || c == '\U{2028}' || c == '\U{2029}'
  }

  /** The lazy `.*?` followed by `</think>`, tried from index `j`: the end of the
      first `</think>` reached before any line terminator. */
  function CloseEnd(s: string, j: nat): (e: Option<nat>)
    requires j <= |s|
    ensures e.Some? ==> j + |CloseTag| <= e.value <= |s| && s[e.value - |CloseTag|..e.value] == CloseTag
    ensures e.Some? ==> forall i :: j <= i < e.value - |CloseTag| ==>
      !IsLineTerminator(s[i]) && s[i..i + |CloseTag|] != CloseTag
    decreases |s| - j
  {
    if j + |CloseTag| <= |s| && s[j..j + |CloseTag|] == CloseTag then Some(j + |CloseTag|)
    else if j < |s| && !IsLineTerminator(s[j]) then CloseEnd(s, j + 1)
    else None
  }

  /** The length of the match of the pattern at the start of `s`, if it matches
      there. */
  function MatchAt(s: string): (e: Option<nat>)
    ensures e.Some? ==> StartsWith(s, OpenTag) && |OpenTag| + |CloseTag| <= e.value <= |s|
  {
    if StartsWith(s, OpenTag) then CloseEnd(s, |OpenTag|) else None
  }

  /** `clean` (lines 10-12): scanning left to right, every match of the pattern is
      deleted and every other character kept; scanning resumes after a deleted match,
      so the result is never longer than the input. */
  function Clean(s: string): (r: string)
    ensures |r| <= |s|
    decreases |s|
  {
    if s == [] then []
    else
      match MatchAt(s)
      case Some(e) => Clean(s[e..])
      case None => [s[0]] + Clean(s[1..])
  }

  /** No `<think>` starts anywhere in `s`. */
  predicate NoOpenTag(s: string) {
    forall i :: 0 <= i < |s| ==> !StartsWith(s[i..], OpenTag)
  }

  /** Text with no `<think>` in it comes back unchanged. */
  lemma {:induction false} CleanWithoutTag(s: string)
    requires NoOpenTag(s)
    ensures Clean(s) == s
    decreases |s|
  {
    if s != [] {
      assert s[0..] == s;
      assert MatchAt(s).None?;
      assert NoOpenTag(s[1..]) by {
        forall i | 0 <= i < |s[1..]| ensures !StartsWith(s[1..][i..], OpenTag) {
          assert s[1..][i..] == s[i + 1..];
        }
      }
      CleanWithoutTag(s[1..]);
    }
  }

  /** `</think>` does not start anywhere before index `n` of `s`. */
  predicate NoCloseBefore(s: string, n: nat)
    requires n <= |s|
  {
    forall j :: 0 <= j < n ==> !StartsWith(s[j..], CloseTag)
  }

  /** From inside a one-line block, the lazy scan stops at the block's own `</think>`. */
  lemma {:induction false} CloseEndFinds(s: string, j: nat, k: nat)
    requires j <= k && k + |CloseTag| <= |s|
    requires s[k..k + |CloseTag|] == CloseTag
    requires forall i :: j <= i < k ==> !IsLineTerminator(s[i]) && s[i..i + |CloseTag|] != CloseTag
    ensures CloseEnd(s, j) == Some(k + |CloseTag|)
    decreases k - j
  {
    if j < k {
      assert !IsLineTerminator(s[j]) && s[j..j + |CloseTag|] != CloseTag;
      CloseEndFinds(s, j + 1, k);
    }
  }

  /** A one-line block is deleted: when `t` holds no line terminator and no
      `</think>` begins before the closing tag, `<think>` + t + `</think>` vanishes
      and cleaning goes on with what follows. */
  lemma CleanDropsBlock(t: string, rest: string)
    requires forall i :: 0 <= i < |t| ==> !IsLineTerminator(t[i])
    requires NoCloseBefore(t + CloseTag, |t|)
    ensures Clean(OpenTag + t + CloseTag + rest) == Clean(rest)
  {
    var s := OpenTag + t + CloseTag + rest;
    var k := |OpenTag| + |t|;
    assert s[k..k + |CloseTag|] == CloseTag;
    forall i | |OpenTag| <= i < k
      ensures !IsLineTerminator(s[i]) && s[i..i + |CloseTag|] != CloseTag
    {
      var u := t + CloseTag;
      assert s[i] == t[i - |OpenTag|];
      assert s[i..i + |CloseTag|] == u[i - |OpenTag|..][..|CloseTag|];
    }
    CloseEndFinds(s, |OpenTag|, k);
    assert s[..|OpenTag|] == OpenTag;
    assert s[k + |CloseTag|..] == rest;
  }

  /** A `</think>` begins at index `i` of `s`. */
  predicate ClosesAt(s: string, i: nat) {
    i + |CloseTag| <= |s| && s[i..i + |CloseTag|] == CloseTag
  }

  /** The lazy scan fails when it reaches a line terminator, or the end of the text,
      at `k` before any `</think>` begins. */
  lemma {:induction false} CloseEndFails(s: string, j: nat, k: nat)
    requires j <= k <= |s|
    requires k == |s| || IsLineTerminator(s[k])
    requires forall i :: j <= i <= k ==> !ClosesAt(s, i)
    ensures CloseEnd(s, j) == None
    decreases k - j
  {
    assert !ClosesAt(s, j);
    if j < k && !IsLineTerminator(s[j]) {
      CloseEndFails(s, j + 1, k);
    }
  }

  /** An opening tag whose block is not closed on its own line is not matched: the
      `<` is kept and scanning moves on by one character. */
  lemma CleanKeepsUnclosedBlock(s: string, k: nat)
    requires StartsWith(s, OpenTag)
    requires |OpenTag| <= k <= |s|
    requires k == |s| || IsLineTerminator(s[k])
    requires forall i :: |OpenTag| <= i <= k ==> !ClosesAt(s, i)
    ensures Clean(s) == [s[0]] + Clean(s[1..])
  {
    CloseEndFails(s, |OpenTag|, k);
  }

  /** Dropping the first character of `x + y + z` drops it from `x`. */
  lemma DropFirstOfAppend(x: string, y: string, z: string)
    requires x != []
    ensures (x + y + z)[1..] == x[1..] + (y + z)
  {
  }

  /** No `</think>` begins where the text has no `<`. */
  lemma NoCloseWithoutLt(s: string, from: nat, to: nat)
    requires forall i :: from <= i <= to && i < |s| ==> s[i] != '<'
    ensures forall i :: from <= i <= to ==> !ClosesAt(s, i)
  {
    forall i | from <= i <= to && i + |CloseTag| <= |s| ensures !ClosesAt(s, i) {
      assert s[i..i + |CloseTag|][0] == s[i];
    }
  }

  /** Text holding no `<` is kept as it is, whatever follows it. */
  lemma {:induction false} CleanAfterPlain(x: string, s: string)
    requires Avoids(x, '<')
    ensures Clean(x + s) == x + Clean(s)
    decreases |x|
  {
    if x == [] {
      assert x + s == s;
    } else {
      var t := x + s;
      assert t[0] == x[0] && t[1..] == x[1..] + s;
      if |t| >= |OpenTag| {
        assert t[..|OpenTag|][0] == t[0];
      }
      CleanAfterPlain(x[1..], s);
      assert x == [x[0]] + x[1..];
    }
  }

  /** Hence a one-line block is deleted wherever it stands after text free of `<`:
      `x` + `<think>` + t + `</think>` + rest cleans to `x` followed by the cleaned
      rest. */
  lemma CleanDropsInnerBlock(x: string, t: string, rest: string)
    requires Avoids(x, '<')
    requires forall i :: 0 <= i < |t| ==> !IsLineTerminator(t[i])
    requires NoCloseBefore(t + CloseTag, |t|)
    ensures Clean(x + OpenTag + t + CloseTag + rest) == x + Clean(rest)
  {
    assert x + OpenTag + t + CloseTag + rest == x + (OpenTag + t + CloseTag + rest);
    CleanAfterPlain(x, OpenTag + t + CloseTag + rest);
    CleanDropsBlock(t, rest);
  }

  /** The closing tag contains no opening tag, and the opening tag has no `<` after
      its first character. */
  lemma TagFacts()
    ensures NoOpenTag(CloseTag)
    ensures Avoids(OpenTag[1..], '<')
  {
    forall i | 0 <= i < |CloseTag| ensures !StartsWith(CloseTag[i..], OpenTag) {
      if i <= 1 {
        assert CloseTag[i..][0] != OpenTag[0] || CloseTag[i..][1] != OpenTag[1];
      }
    }
  }

  /** A `<think>` in `x + y` cannot start inside a prefix `x` that holds no `<`. */
  lemma NoOpenTagAppend(x: string, y: string)
    requires Avoids(x, '<') && NoOpenTag(y)
    ensures NoOpenTag(x + y)
  {
    var s := x + y;
    forall i | 0 <= i < |s| ensures !StartsWith(s[i..], OpenTag) {
      if i < |x| {
        assert s[i..][0] == x[i];
      } else {
        assert s[i..] == y[i - |x|..];
      }
    }
  }

  /** The opening tag of a block whose body breaks the line before any `<` is not
      matched: its `<` is kept. */
  lemma BrokenBlockKeepsOpenTag(body: string, k: nat)
    requires k < |body| && IsLineTerminator(body[k])
    requires Avoids(body, '<')
    ensures var s := OpenTag + body + CloseTag; Clean(s) == [s[0]] + Clean(s[1..])
  {
    var rest := body + CloseTag;
    var s := OpenTag + body + CloseTag;
    StartsWithAppend(OpenTag, body, CloseTag);
    assert s[|OpenTag| + k] == rest[k] == body[k];
    forall i | |OpenTag| <= i <= |OpenTag| + k && i < |s| ensures s[i] != '<' {
      assert s[i] == rest[i - |OpenTag|] == body[i - |OpenTag|];
    }
    NoCloseWithoutLt(s, |OpenTag|, |OpenTag| + k);
    CleanKeepsUnclosedBlock(s, |OpenTag| + k);
  }

  /** Anything that does not open a `<think>` block is kept, one character at a time. */
  lemma CleanKeepsNonTag(s: string)
    requires s != [] && !StartsWith(s, OpenTag)
    ensures Clean(s) == [s[0]] + Clean(s[1..])
  {
  }

  /** Hence a block split over lines survives cleaning whole: when the body holds a
      line terminator at `k` and no `<`, `<think>` + body + `</think>` comes back
      unchanged. */
  lemma MultiLineBlockSurvives(body: string, k: nat)
    requires k < |body| && IsLineTerminator(body[k])
    requires Avoids(body, '<')
    ensures Clean(OpenTag + body + CloseTag) == OpenTag + body + CloseTag
  {
    var s := OpenTag + body + CloseTag;
    BrokenBlockKeepsOpenTag(body, k);
    DropFirstOfAppend(OpenTag, body, CloseTag);
    TagFacts();
    NoOpenTagAppend(body, CloseTag);
    NoOpenTagAppend(OpenTag[1..], body + CloseTag);
    CleanWithoutTag(s[1..]);
    assert s == [s[0]] + s[1..];
  }

  // ---------------------------------------------------------------------------
  // getEvalString

  function Abs(n: int): nat { if n < 0 then -n else n }

  function AbsReal(x: real): real { if x < 0.0 then -x else x }

  /** `getEvalString` (lines 35-43). `show` is JavaScript's printing of the (floating
      point) evaluation; a mate count is an integer and prints in decimal. A mate
      line names White exactly when the count is positive (a zero count names
      Black), and the count can be read back with `parseInt`; otherwise the side is
      white exactly when the evaluation is non-negative. */
  function EvalString(evaluation: real, mate: Option<int>, show: real -> string): (r: string)
    ensures mate.Some? ==> StartsWith(r, "Mate in ")
    ensures mate.Some? ==> (EndsWith(r, " moves for White") <==> mate.value > 0)
    ensures mate.Some? ==> (EndsWith(r, " moves for Black") <==> mate.value <= 0)
    ensures mate.None? ==> StartsWith(r, show(AbsReal(evaluation)))
    ensures mate.None? ==> (EndsWith(r, " pawn advantage for white") <==> evaluation >= 0.0)
    ensures mate.None? ==> (EndsWith(r, " pawn advantage for black") <==> evaluation < 0.0)
    ensures mate.Some? ==> |r| == |"Mate in "| + |NatToString(Abs(mate.value))| + |" moves for White"|
    ensures mate.None? ==> |r| == |show(AbsReal(evaluation))| + |" pawn advantage for white"|
  {
    if mate.Some? then MateText(mate.value) else AdvantageText(evaluation, show)
  }

  /** The mate branch of `getEvalString`. */
  function MateText(m: int): (r: string)
    ensures StartsWith(r, "Mate in ")
    ensures EndsWith(r, " moves for White") <==> m > 0
    ensures EndsWith(r, " moves for Black") <==> m <= 0
    ensures |r| == |"Mate in "| + |NatToString(Abs(m))| + |" moves for White"|
  {
    var tail := if m > 0 then " moves for White" else " moves for Black";
    StartsWithAppend("Mate in ", NatToString(Abs(m)), tail);
    EndsWithAppend("Mate in " + NatToString(Abs(m)), tail);
    "Mate in " + NatToString(Abs(m)) + tail
  }

  /** The pawn-advantage branch of `getEvalString`. */
  function AdvantageText(evaluation: real, show: real -> string): (r: string)
    ensures StartsWith(r, show(AbsReal(evaluation)))
    ensures EndsWith(r, " pawn advantage for white") <==> evaluation >= 0.0
    ensures EndsWith(r, " pawn advantage for black") <==> evaluation < 0.0
    ensures |r| == |show(AbsReal(evaluation))| + |" pawn advantage for white"|
  {
    var magnitude := show(AbsReal(evaluation));
    var tail := if evaluation >= 0.0 then " pawn advantage for white" else " pawn advantage for black";
    StartsWithAppend(magnitude, [], tail);
    assert magnitude + [] == magnitude;
    EndsWithAppend(magnitude, tail);
    magnitude + tail
  }

  /** The mate count printed by `getEvalString` reads back with `parseInt` as the
      number of moves to mate, whichever side mates. */
  lemma MateCountReadsBack(evaluation: real, m: int, show: real -> string)
    ensures ParseInt(EvalString(evaluation, Some(m), show)[8..]) == Some(Abs(m))
  {
    var tail := if m > 0 then " moves for White" else " moves for Black";
    StartsWithAppend("Mate in ", NatToString(Abs(m)), tail);
    ParseIntOfNatToString(Abs(m), tail);
  }

  // ---------------------------------------------------------------------------
  // getMoveType

  const UnknownMove := "Unknown move"
  const CastlingText := "Castling with the KING"
  const CapturePrefix := "Capturing the "
  const PlainPrefix := "Move the piece "

  /** The four king moves the routes treat as castling. */
  predicate IsCastlingCode(uci: string) {
    uci == "e1g1" || uci == "e1c1" || uci == "e8g8" || uci == "e8c8"
  }

  /** `moveUci.substring(0, 2)`. */
  function FromSquare(uci: string): string { Substring(uci, 0, 2) }

  /** `moveUci.substring(2, 4)`. */
  function ToSquare(uci: string): string { Substring(uci, 2, 4) }

  /** What a move description says, by case: unknown exactly when nothing stands on
      the from-square; castling exactly for one of the four castling codes made by a
      king; otherwise a capture exactly when the to-square is occupied, naming both
      pieces' upper-case letters; otherwise a plain move naming the mover. */
  predicate Classifies(b: map<string, Piece>, uci: string, text: string) {
    var from, to := FromSquare(uci), ToSquare(uci);
    && (text == UnknownMove <==> from !in b)
    && (text == CastlingText <==> from in b && IsCastlingCode(uci) && b[from].kind == King)
    && (StartsWith(text, CapturePrefix) <==>
          from in b && !(IsCastlingCode(uci) && b[from].kind == King) && to in b)
    && (StartsWith(text, PlainPrefix) <==>
          from in b && !(IsCastlingCode(uci) && b[from].kind == King) && to !in b)
    && (StartsWith(text, CapturePrefix) ==>
          text == CapturePrefix + [UpperLetter(b[to].kind)] + " with " + [UpperLetter(b[from].kind)])
    && (StartsWith(text, PlainPrefix) ==> text == PlainPrefix + [UpperLetter(b[from].kind)])
  }

  /** The four kinds of text are told apart by how they begin. */
  lemma TextsDiffer(x: char, y: char)
    ensures !StartsWith(UnknownMove, CapturePrefix) && !StartsWith(UnknownMove, PlainPrefix)
    ensures !StartsWith(CastlingText, CapturePrefix) && !StartsWith(CastlingText, PlainPrefix)
    ensures var c := CapturePrefix + [x] + " with " + [y];
      StartsWith(c, CapturePrefix) && !StartsWith(c, PlainPrefix) && c != UnknownMove && c != CastlingText
    ensures var m := PlainPrefix + [x];
      StartsWith(m, PlainPrefix) && !StartsWith(m, CapturePrefix) && m != UnknownMove && m != CastlingText
  {
    var c := CapturePrefix + [x] + " with " + [y];
    var m := PlainPrefix + [x];
    assert c[..|CapturePrefix|] == CapturePrefix;
    assert m[..|PlainPrefix|] == PlainPrefix;
    assert c[0] == 'C' && m[0] == 'M' && UnknownMove[0] == 'U' && CastlingText[1] == 'a' && c[1] == 'a';
    assert |c| == 22 && c[2] == 'p' && CastlingText[2] == 's';
  }

  /** `getMoveType` (lines 46-69): load the FEN (the constructor throws on a bad one)
      and describe the move from the from- and to-squares of the UCI string. */
  function MoveType(o: Oracle, fen: string, uci: string): (r: Option<string>)
    ensures r.Some? <==> o.load(fen).Some?
    ensures r.Some? ==> Classifies(o.pieces(o.load(fen).value), uci, r.value)
  {
    match o.load(fen)
    case None => None
    case Some(board) =>
      var b := o.pieces(board);
      var from, to := FromSquare(uci), ToSquare(uci);
      if from !in b then Some(UnknownMove)
      else
        var pieceType := [UpperLetter(b[from].kind)];
        TextsDiffer(UpperLetter(if to in b then b[to].kind else King), pieceType[0]);
        if IsCastlingCode(uci) && pieceType == "K" then Some(CastlingText)
        else if to in b then Some(CapturePrefix + [UpperLetter(b[to].kind)] + " with " + pieceType)
        else Some(PlainPrefix + pieceType)
  }

  // ---------------------------------------------------------------------------
  // getStockfishInfo

  /** The JSON the engine service answers with, as far as the routes read it. */
  datatype EngineReply = EngineReply(success: bool, bestmove: Option<string>, evaluation: real, mate: Option<int>)

  /** What the engine helpers hand back; `bestMove` is `undefined` when the
      `bestmove` string has no second token. */
  datatype EngineInfo = EngineInfo(bestMove: Option<string>, evaluation: real, mate: Option<int>)

  /** `s.split(" ")[1]`: the second space-separated token, if there is one. */
  function SecondToken(s: string): (t: Option<string>)
    ensures t.Some? <==> |Split(s, ' ')| >= 2
    ensures t.Some? ==> Avoids(t.value, ' ')
  {
    var tokens := Split(s, ' ');
    if |tokens| >= 2 then Some(tokens[1]) else None
  }

  /** In an engine line `bestmove e2e4 ponder e7e5` the token picked is the move. */
  lemma SecondTokenPicksMove(head: string, move: string, rest: string)
    requires Avoids(head, ' ') && Avoids(move, ' ')
    requires rest == [] || rest[0] == ' '
    ensures SecondToken(head + " " + move + rest) == Some(move)
  {
    var s := head + " " + move + rest;
    SplitPrefix(head, " " + move + rest, ' ');
    assert s == head + (" " + move + rest);
    var tail := (" " + move + rest)[1..];
    assert tail == move + rest;
    assert Split(" " + move + rest, ' ') == [[]] + Split(tail, ' ');
    SplitPrefix(move, rest, ' ');
    if rest == [] {
      assert move + rest == move;
    } else {
      assert Split(rest, ' ') == [[]] + Split(rest[1..], ' ');
      assert move + [] == move;
    }
  }

  /** `getStockfishInfo` (lines 15-32) after the fetch: `None` when the request or the
      JSON decoding failed, when `success` is false, or when `bestmove` is absent
      (calling `split` on it throws). */
  function StockfishInfo(reply: Option<EngineReply>): (r: Option<EngineInfo>)
    ensures r.Some? <==> reply.Some? && reply.value.success && reply.value.bestmove.Some?
    ensures r.Some? ==> r.value.bestMove == SecondToken(reply.value.bestmove.value)
    ensures r.Some? ==> r.value.evaluation == reply.value.evaluation && r.value.mate == reply.value.mate
  {
    match reply
    case None => None
    case Some(data) =>
      if !data.success then None
      else
        match data.bestmove
        case None => None
        case Some(line) => Some(EngineInfo(SecondToken(line), data.evaluation, data.mate))
  }

  // ---------------------------------------------------------------------------
  // POST: dispatch on the request type

  const InvalidType := "Invalid request type"
  const ProcessFailed := "Failed to process request"

  /** The three request types the handler serves. */
  datatype Kind = AnalyzeAi | AssessUser | Chat

  /** The `switch (type)` of line 75: exactly three strings are served. */
  function KindOf(t: Option<string>): (k: Option<Kind>)
    ensures k.Some? <==> t == Some("analyze AI") || t == Some("assessment user") || t == Some("chat")
    ensures k == Some(AnalyzeAi) <==> t == Some("analyze AI")
    ensures k == Some(AssessUser) <==> t == Some("assessment user")
    ensures k == Some(Chat) <==> t == Some("chat")
  {
    if t == Some("analyze AI") then Some(AnalyzeAi)
    else if t == Some("assessment user") then Some(AssessUser)
    else if t == Some("chat") then Some(Chat)
    else None
  }

  /** The request body `{ type, fen, move }`; absent fields are `None`. */
  datatype ChessRequest = ChessRequest(kind: Option<string>, fen: string, move: Option<string>)

  /** The language model's answer: the call failed, or it returned a message whose
      content may be `null`. */
  datatype Completion = Unavailable | Message(content: Option<string>)

  /** The success bodies. */
  datatype ChessBody =
    | Analysis(analysis: string, bestMove: string, evaluation: string)
    | Answer(response: string)

  /** `completion.choices[0].message.content ?? ""` after cleaning. */
  function Reply(c: Completion): string
    requires c.Message?
  {
    Clean(if c.content.Some? then c.content.value else "")
  }

  /** `POST` (lines 71-162). `engine` is the engine service's answer for `fen` (`None`
      when the request or its decoding fails), `completion` the language model's,
      and `show` JavaScript's printing of an evaluation. Any type but the three
      served ones is a 400; every thrown error is a 500. */
  function Handle(o: Oracle, req: ChessRequest, engine: Option<EngineReply>, completion: Completion,
                  show: real -> string): (r: Response<ChessBody>)
    ensures r == Failure(400, InvalidType) <==> KindOf(req.kind).None?
    ensures r.Failure? ==> r == Failure(400, InvalidType) || r == Failure(500, ProcessFailed)
    ensures r.Ok? ==> completion.Message? && (r.body.Analysis? <==> KindOf(req.kind) == Some(AnalyzeAi))
    ensures r.Ok? && r.body.Analysis? ==>
      var info := StockfishInfo(engine);
      && info.Some?
      && info.value.bestMove == Some(r.body.bestMove)
      && r.body.evaluation == EvalString(info.value.evaluation, info.value.mate, show)
      && MoveType(o, req.fen, r.body.bestMove).Some?
    ensures KindOf(req.kind) == Some(AnalyzeAi) ==>
      (r.Ok? <==> && StockfishInfo(engine).Some? && StockfishInfo(engine).value.bestMove.Some?
                  && MoveType(o, req.fen, StockfishInfo(engine).value.bestMove.value).Some?
                  && completion.Message?)
    ensures KindOf(req.kind) == Some(AssessUser) ==>
      (r.Ok? <==> && StockfishInfo(engine).Some? && req.move.Some?
                  && MoveType(o, req.fen, req.move.value).Some? && completion.Message?)
    ensures KindOf(req.kind) == Some(Chat) ==> (r.Ok? <==> completion.Message?)
    ensures r.Ok? && r.body.Analysis? ==> r.body.analysis == Reply(completion)
    ensures r.Ok? && r.body.Answer? ==> r.body.response == Reply(completion)
  {
    var kind := KindOf(req.kind);
    if kind.None? then Failure(400, InvalidType)
    else if kind.value == AnalyzeAi then
      match StockfishInfo(engine)
      case None => Failure(500, ProcessFailed)
      case Some(info) =>
        if info.bestMove.None? || MoveType(o, req.fen, info.bestMove.value).None? || completion.Unavailable? then
          Failure(500, ProcessFailed)
        else
          Ok(Analysis(Reply(completion), info.bestMove.value, EvalString(info.evaluation, info.mate, show)))
    else if kind.value == AssessUser then
      match StockfishInfo(engine)
      case None => Failure(500, ProcessFailed)
      case Some(info) =>
        if req.move.None? || MoveType(o, req.fen, req.move.value).None? || completion.Unavailable? then
          Failure(500, ProcessFailed)
        else
          Ok(Answer(Reply(completion)))
    else
      if completion.Unavailable? then Failure(500, ProcessFailed)
      else Ok(Answer(Reply(completion)))
  }

  /** A chat request never consults the engine or the board. */
  lemma ChatIgnoresEngine(o: Oracle, o': Oracle, fen: string, fen': string, move: Option<string>,
                          e: Option<EngineReply>, e': Option<EngineReply>, c: Completion, show: real -> string)
    ensures Handle(o, ChessRequest(Some("chat"), fen, move), e, c, show)
         == Handle(o', ChessRequest(Some("chat"), fen', move), e', c, show)
  {
  }
}
