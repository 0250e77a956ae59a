/** The puzzle endpoints (app/api/puzzles/route.ts): the puzzle bank read from a CSV
    file per difficulty and memoised in a process-wide table, `GET`, which sets up a
    random puzzle by playing its first scripted move, and `POST`, which checks one
    submitted move against the remaining solution and, when it is both legal and
    correct, plays it together with the scripted reply. */
module PuzzleRoute {
  import opened Wrappers
  import opened JsText
  import opened ChessOracle

  // ---------------------------------------------------------------------------
  // The puzzle bank: CSV parse and the per-difficulty cache

  /** One puzzle as the CSV parse builds it; `rating` is `None` where `parseInt`
      yields `NaN`. */
  datatype Puzzle = Puzzle(fen: string, moves: seq<string>, rating: Option<int>)

  /** What the parse guarantees of every puzzle it yields. */
  predicate WellFormed(p: Puzzle) {
    && IsTrimmed(p.fen)
    && |p.moves| >= 1
    && forall i :: 0 <= i < |p.moves| ==> Avoids(p.moves[i], ' ')
  }

  /** One row `fen,moves,rating[,...]`. Destructuring leaves a missing field
      `undefined`, and calling `trim` on it throws: `None`. */
  function ParseRow(row: string): (r: Option<Puzzle>)
    ensures r.Some? <==> |Split(row, ',')| >= 3
    ensures r.Some? ==> WellFormed(r.value)
  {
    var fields := Split(row, ',');
    if |fields| < 3 then None
    else Some(Puzzle(Trim(fields[0]), Split(Trim(fields[1]), ' '), ParseInt(Trim(fields[2]))))
  }

  /** What each field of a parsed row becomes: the trimmed first field is the FEN,
      the space-separated moves join back into the trimmed second field, and the
      rating is `parseInt` of the trimmed third field; later fields are ignored. */
  lemma ParseRowFields(row: string)
    requires |Split(row, ',')| >= 3
    ensures var fields := Split(row, ',');
      var p := ParseRow(row).value;
      && p.fen == Trim(fields[0])
      && Join(p.moves, ' ') == Trim(fields[1])
      && p.rating == ParseInt(Trim(fields[2]))
  {
    JoinSplit(Trim(Split(row, ',')[1]), ' ');
  }

  /** `rows.map(parseRow)`: one puzzle per row, in order, or `None` when some row
      throws. */
  function ParseRows(rows: seq<string>): (r: Option<seq<Puzzle>>)
    ensures r.Some? <==> forall i :: 0 <= i < |rows| ==> ParseRow(rows[i]).Some?
    ensures r.Some? ==> |r.value| == |rows|
    ensures r.Some? ==> forall i :: 0 <= i < |rows| ==> ParseRow(rows[i]) == Some(r.value[i])
  {
    var results := seq(|rows|, i requires 0 <= i < |rows| => ParseRow(rows[i]));
    assert forall i :: 0 <= i < |rows| ==> results[i] == ParseRow(rows[i]);
    AllPresent(results)
  }

  /** The lines of a CSV file after its header line. */
  function Rows(text: string): (rows: seq<string>)
    ensures |rows| == |Split(text, '\n')| - 1
    ensures Join([Split(text, '\n')[0]] + rows, '\n') == text
  {
    var lines := Split(text, '\n');
    JoinSplit(text, '\n');
    assert [lines[0]] + lines[1..] == lines;
    lines[1..]
  }

  /** The body of a CSV file: one puzzle per line after the header, in order, or
      `None` when some line lacks a field. */
  function ParseCsv(text: string): (r: Option<seq<Puzzle>>)
    ensures r.Some? <==> forall i :: 0 <= i < |Rows(text)| ==> |Split(Rows(text)[i], ',')| >= 3
    ensures r.Some? ==> |r.value| == |Rows(text)|
    ensures r.Some? ==> forall i :: 0 <= i < |r.value| ==> ParseRow(Rows(text)[i]) == Some(r.value[i])
    ensures r.Some? ==> forall i :: 0 <= i < |r.value| ==> WellFormed(r.value[i])
  {
    ParseRows(Rows(text))
  }

  /** A file that ends with a newline has an empty last row, which has no second
      field, so the whole parse throws. */
  lemma TrailingNewlineFails(text: string)
    ensures ParseCsv(text + "\n") == None
  {
    SplitTrailingSeparator(text, '\n');
    var lines := Split(text + "\n", '\n');
    assert lines[|lines| - 1] == [];
    assert |Split([], ',')| == 1;
  }

  const EasyUrl := "https://media.githubusercontent.com/media/adityaamehra/Chess-tutor/refs/heads/main/easy.csv"
  const MediumUrl := "https://media.githubusercontent.com/media/adityaamehra/Chess-tutor/refs/heads/main/medium.csv"
  const HardUrl := "https://media.githubusercontent.com/media/adityaamehra/Chess-tutor/refs/heads/main/hard.csv"

  /** The keys of the URL table. */
  predicate IsDifficulty(d: string) {
    d == "easy" || d == "medium" || d == "hard"
  }

  /** The file of each difficulty; any other key has no URL (and `fetch(undefined)`
      rejects). */
  function CsvUrl(difficulty: string): (url: Option<string>)
    ensures url.Some? <==> IsDifficulty(difficulty)
    ensures url == Some(EasyUrl) <==> difficulty == "easy"
    ensures url == Some(MediumUrl) <==> difficulty == "medium"
    ensures url == Some(HardUrl) <==> difficulty == "hard"
  {
    if difficulty == "easy" then Some(EasyUrl)
    else if difficulty == "medium" then Some(MediumUrl)
    else if difficulty == "hard" then Some(HardUrl)
    else None
  }

  /** A cache miss: fetch the difficulty's file (`fetchText` stands for the network:
      the body text served at a URL, or `None` when the request fails) and parse it. */
  function Fetch(difficulty: string, fetchText: string -> Option<string>): (r: Option<seq<Puzzle>>)
    ensures r.Some? ==> IsDifficulty(difficulty)
    ensures r.Some? ==> forall i :: 0 <= i < |r.value| ==> WellFormed(r.value[i])
    ensures r.Some? ==> fetchText(CsvUrl(difficulty).value).Some?
    ensures CsvUrl(difficulty).Some? && fetchText(CsvUrl(difficulty).value).Some? ==>
      r == ParseCsv(fetchText(CsvUrl(difficulty).value).value)
  {
    match CsvUrl(difficulty)
    case None => None
    case Some(url) =>
      match fetchText(url)
      case None => None
      case Some(text) => ParseCsv(text)
  }

  /** The module-level `puzzleCache`: the parsed puzzles of each difficulty loaded so
      far. Sequential calls only ever add entries, never replace or evict one. */
  class PuzzleCache {
    var entries: map<string, seq<Puzzle>>

    /** Only real difficulties are cached, and only lists the parse produced. */
    ghost predicate Valid()
      reads this
    {
      forall d :: d in entries ==>
        IsDifficulty(d) && forall i :: 0 <= i < |entries[d]| ==> WellFormed(entries[d][i])
    }

    constructor()
      ensures Valid() && entries == map[]
    {
      entries := map[];
    }

    /** `loadPuzzles` (lines 102-131): a hit returns the stored list without fetching;
        a miss fetches and parses, and stores the list only when that succeeds. No
        other difficulty's entry changes. */
    method LoadPuzzles(difficulty: string, fetchText: string -> Option<string>)
      returns (r: Option<seq<Puzzle>>)
      requires Valid()
      modifies this
      ensures Valid()
      ensures difficulty in old(entries) ==> r == Some(old(entries)[difficulty]) && entries == old(entries)
      ensures difficulty !in old(entries) ==> r == Fetch(difficulty, fetchText)
      ensures difficulty !in old(entries) && r.Some? ==> entries == old(entries)[difficulty := r.value]
      ensures difficulty !in old(entries) && r.None? ==> entries == old(entries)
      ensures r.Some? ==> forall i :: 0 <= i < |r.value| ==> WellFormed(r.value[i])
    {
      if difficulty in entries {
        return Some(entries[difficulty]);
      }
      r := Fetch(difficulty, fetchText);
      if r.Some? {
        entries := entries[difficulty := r.value];
      }
    }
  }

  // ---------------------------------------------------------------------------
  // GET: set up a puzzle

  const LoadFailed := "Failed to load puzzle"

  /** What `GET` returns on success. */
  datatype PuzzleView = PuzzleView(fen: string, rating: Option<int>, remainingSolution: seq<string>)

  /** The `difficulty` query parameter, lower-cased, or `easy` when it is absent or
      empty. */
  function DifficultyOf(param: Option<string>): (d: string)
    ensures d != []
    ensures param.None? || param.value == [] ==> d == "easy"
    ensures param.Some? && param.value != [] ==> d == ToLower(param.value)
    ensures forall i :: 0 <= i < |d| ==> d[i] == LowerChar(d[i])
  {
    if param.None? then "easy"
    else
      var lowered := ToLower(param.value);
      if lowered == [] then "easy" else lowered
  }

  /** `Math.floor(Math.random() * n)` for a draw `random` in [0, 1): a valid index
      whenever there is one. */
  function PickIndex(random: real, n: nat): (i: int)
    requires 0.0 <= random < 1.0
    ensures n > 0 ==> 0 <= i < n
    ensures n == 0 ==> i == 0
  {
    var x := random * n as real;
    assert 0.0 <= x;
    assert n > 0 ==> x < n as real;
    x.Floor
  }

  /** Plays `ms` one after the other from `p`; `None` at the first move chess.js
      rejects. */
  function Replay(o: Oracle, p: Position, ms: seq<string>): Option<Position>
    decreases |ms|
  {
    if ms == [] then Some(p)
    else
      match o.move(p, ms[0])
      case None => None
      case Some(q) => Replay(o, q, ms[1..])
  }

  /** The moves `GET` plays while setting a puzzle up: the first, if any. */
  function Opening(moves: seq<string>): seq<string> {
    moves[..Min(1, |moves|)]
  }

  /** Lines 149-161: load the puzzle's FEN, play its first move when there is one, and
      hand back the rest of the solution. `None` when chess.js throws. */
  function SetUp(o: Oracle, puzzle: Puzzle): (r: Option<PuzzleView>)
    ensures r.Some? <==> o.load(puzzle.fen).Some? && Replay(o, o.load(puzzle.fen).value, Opening(puzzle.moves)).Some?
    ensures r.Some? ==> r.value.fen == o.fen(Replay(o, o.load(puzzle.fen).value, Opening(puzzle.moves)).value)
    ensures r.Some? ==> Opening(puzzle.moves) + r.value.remainingSolution == puzzle.moves
    ensures r.Some? && puzzle.moves == [] ==> r.value.remainingSolution == [] && r.value.fen == o.fen(o.load(puzzle.fen).value)
    ensures r.Some? ==> r.value.rating == puzzle.rating
  {
    match o.load(puzzle.fen)
    case None => None
    case Some(board) =>
      if |puzzle.moves| > 0 then
        match o.move(board, puzzle.moves[0])
        case None => None
        case Some(next) =>
          assert Opening(puzzle.moves) == [puzzle.moves[0]];
          assert Opening(puzzle.moves) + puzzle.moves[1..] == puzzle.moves;
          Some(PuzzleView(o.fen(next), puzzle.rating, puzzle.moves[1..]))
      else
        Some(PuzzleView(o.fen(board), puzzle.rating, []))
  }

  /** Lines 146-161 once the puzzles are loaded: pick one at the drawn index and set it
      up. An empty list gives `undefined`, whose `fen` throws. */
  function Serve(o: Oracle, puzzles: seq<Puzzle>, random: real): (r: Response<PuzzleView>)
    requires 0.0 <= random < 1.0
    ensures puzzles == [] ==> r == Failure(500, LoadFailed)
    ensures r.Ok? ==> |puzzles| > 0 && SetUp(o, puzzles[PickIndex(random, |puzzles|)]) == Some(r.body)
    ensures r.Failure? ==> r == Failure(500, LoadFailed)
    ensures |puzzles| > 0 && SetUp(o, puzzles[PickIndex(random, |puzzles|)]).Some? ==>
      r == Ok(SetUp(o, puzzles[PickIndex(random, |puzzles|)]).value)
  {
    var i := PickIndex(random, |puzzles|);
    if i < |puzzles| then
      match SetUp(o, puzzles[i])
      case None => Failure(500, LoadFailed)
      case Some(view) => Ok(view)
    else Failure(500, LoadFailed)
  }

  /** `GET` (lines 140-170). The `Math.random()` draw is the parameter `random`. */
  method Get(o: Oracle, cache: PuzzleCache, param: Option<string>,
             fetchText: string -> Option<string>, random: real)
    returns (resp: Response<PuzzleView>)
    requires cache.Valid() && 0.0 <= random < 1.0
    modifies cache
    ensures cache.Valid()
    ensures var d := DifficultyOf(param);
      var loaded := if d in old(cache.entries) then Some(old(cache.entries)[d]) else Fetch(d, fetchText);
      && (resp == if loaded.None? then Failure(500, LoadFailed) else Serve(o, loaded.value, random))
      && cache.entries == if d in old(cache.entries) || loaded.None? then old(cache.entries)
                          else old(cache.entries)[d := loaded.value]
  {
    var difficulty := DifficultyOf(param);
    var puzzles := cache.LoadPuzzles(difficulty, fetchText);
    if puzzles.None? {
      return Failure(500, LoadFailed);
    }
    resp := Serve(o, puzzles.value, random);
  }

  // ---------------------------------------------------------------------------
  // POST: check one move and advance the solution

  const BadRequest := "Missing or invalid required parameters"
  const VerifyFailed := "Failed to verify move"

  /** The `remainingSolution` field of a request body. */
  datatype SolutionField = Absent | NotArray | Items(moves: seq<string>)

  /** The request body `{ fen, move, remainingSolution }`; `None` for an absent or
      `null` field. */
  datatype MoveRequest = MoveRequest(fen: Option<string>, move: Option<string>, remainingSolution: SolutionField)

  /** The success body. */
  datatype Verdict = Verdict(fen: string, isLegal: bool, isCorrect: bool, remainingSolution: seq<string>)

  /** A string field is truthy when present and non-empty. */
  predicate Truthy(s: Option<string>) {
    s.Some? && s.value != []
  }

  /** Line 191: every field present and truthy, and the solution an array (an empty
      array is truthy, so it passes). */
  predicate Admissible(req: MoveRequest) {
    Truthy(req.fen) && Truthy(req.move) && req.remainingSolution.Items?
  }

  /** The `from + to` strings of a verbose legal-move list. */
  function LegalPairs(ms: seq<LegalMove>): set<string> {
    set i | 0 <= i < |ms| :: ms[i].from + ms[i].to
  }

  /** Line 202, `legalMoves.some((m) => m.from + m.to === move)`: true exactly when
      `move` is one of the `from + to` strings, so only a four-character string made
      of two squares can be legal. */
  function AnyMatches(ms: seq<LegalMove>, move: string): (r: bool)
    ensures r <==> move in LegalPairs(ms)
    ensures r ==> |move| == 4 && IsSquare(move[..2]) && IsSquare(move[2..])
  {
    if ms == [] then false
    else
      var here := ms[0].from + ms[0].to == move;
      var later := AnyMatches(ms[1..], move);
      assert LegalPairs(ms) == {ms[0].from + ms[0].to} + LegalPairs(ms[1..]) by {
        forall x | x in LegalPairs(ms) ensures x in {ms[0].from + ms[0].to} + LegalPairs(ms[1..]) {
          var i :| 0 <= i < |ms| && x == ms[i].from + ms[i].to;
          if i > 0 { assert x == ms[1..][i - 1].from + ms[1..][i - 1].to; }
        }
        forall x | x in LegalPairs(ms[1..]) ensures x in LegalPairs(ms) {
          var i :| 0 <= i < |ms[1..]| && x == ms[1..][i].from + ms[1..][i].to;
          assert x == ms[i + 1].from + ms[i + 1].to;
        }
      }
      if here then
        assert move[..2] == ms[0].from && move[2..] == ms[0].to;
        true
      else later
  }

  /** A promotion written with its piece letter, such as `e7e8q`, is never legal. */
  lemma PromotionNeverLegal(ms: seq<LegalMove>, move: string)
    requires |move| == 5
    ensures !AnyMatches(ms, move)
  {
  }

  /** Lines 205-206: the move is the first remaining solution move (against an empty
      list the expected move is `undefined`, so never). */
  predicate IsCorrect(rem: seq<string>, move: string) {
    rem != [] && move == rem[0]
  }

  /** The state a move check works on: the board and the remaining solution. */
  datatype State = State(position: Position, remaining: seq<string>)

  /** Lines 200-221 on a loaded board. A move that is not both legal and correct
      changes nothing. An accepted move is played and popped, and then the scripted
      reply too when one remains: the first `min(2, n)` solution moves are replayed
      and dropped. `None` when chess.js rejects a move it is asked to play. */
  function Round(o: Oracle, p: Position, rem: seq<string>, move: string): (r: Option<State>)
    ensures !(AnyMatches(o.moves(p), move) && IsCorrect(rem, move)) ==> r == Some(State(p, rem))
    ensures AnyMatches(o.moves(p), move) && IsCorrect(rem, move) ==>
      var k := Min(2, |rem|);
      && (r.Some? <==> Replay(o, p, rem[..k]).Some?)
      && (r.Some? ==> r.value == State(Replay(o, p, rem[..k]).value, rem[k..]))
  {
    if !(AnyMatches(o.moves(p), move) && IsCorrect(rem, move)) then Some(State(p, rem))
    else
      match o.move(p, move)
      case None => None
      case Some(afterUser) =>
        var rest := rem[1..];
        if rest == [] then
          assert rem[..1] == [move] && rem[1..] == [];
          Some(State(afterUser, rest))
        else
          assert rem[..2] == [move, rest[0]] && [move, rest[0]][1..] == [rest[0]];
          match o.move(afterUser, rest[0])
          case None => None
          case Some(afterBot) =>
            assert [rest[0]][1..] == [];
            assert Replay(o, afterUser, [rest[0]]) == Some(afterBot);
            assert rest[1..] == rem[2..];
            Some(State(afterBot, rest[1..]))
  }

  /** Lines 187-236: the whole move check, from request body to response. */
  function Verify(o: Oracle, req: MoveRequest): (r: Response<Verdict>)
    ensures !Admissible(req) <==> r == Failure(400, BadRequest)
    ensures r.Ok? ==> o.load(req.fen.value).Some?
    ensures r.Ok? ==>
      var p := o.load(req.fen.value).value;
      && r.body.isLegal == AnyMatches(o.moves(p), req.move.value)
      && r.body.isCorrect == IsCorrect(req.remainingSolution.moves, req.move.value)
    ensures r.Ok? && !(r.body.isLegal && r.body.isCorrect) ==>
      && r.body.fen == o.fen(o.load(req.fen.value).value)
      && r.body.remainingSolution == req.remainingSolution.moves
    ensures r.Ok? ==> var rem := req.remainingSolution.moves;
      && |r.body.remainingSolution| <= |rem|
      && r.body.remainingSolution == rem[|rem| - |r.body.remainingSolution|..]
    ensures r.Ok? ==>
      var st := Round(o, o.load(req.fen.value).value, req.remainingSolution.moves, req.move.value);
      st.Some? && r.body.fen == o.fen(st.value.position) && r.body.remainingSolution == st.value.remaining
    ensures r.Failure? ==> r == Failure(400, BadRequest) || r == Failure(500, VerifyFailed)
    ensures r == Failure(500, VerifyFailed) <==>
      && Admissible(req)
      && (|| o.load(req.fen.value).None?
          || Round(o, o.load(req.fen.value).value, req.remainingSolution.moves, req.move.value).None?)
  {
    if !Admissible(req) then Failure(400, BadRequest)
    else
      match o.load(req.fen.value)
      case None => Failure(500, VerifyFailed)
      case Some(p) =>
        var move, rem := req.move.value, req.remainingSolution.moves;
        match Round(o, p, rem, move)
        case None => Failure(500, VerifyFailed)
        case Some(st) =>
          Ok(Verdict(o.fen(st.position), AnyMatches(o.moves(p), move), IsCorrect(rem, move), st.remaining))
  }

  /** The `board` and `remainingSolution` array of one `POST` call, which the handler
      updates in place. */
  class PuzzleSession {
    var position: Position
    var remaining: seq<string>

    constructor(p: Position, rem: seq<string>)
      ensures position == p && remaining == rem
    {
      position := p;
      remaining := rem;
    }

    /** `remainingSolution.shift()`: removes and returns the first element, or
        `undefined` on an empty array. */
    method Shift() returns (first: Option<string>)
      modifies this
      ensures position == old(position)
      ensures old(remaining) == [] ==> first.None? && remaining == []
      ensures old(remaining) != [] ==> first == Some(old(remaining)[0]) && remaining == old(remaining)[1..]
    {
      if remaining == [] {
        first := None;
      } else {
        first := Some(remaining[0]);
        remaining := remaining[1..];
      }
    }

    /** `board.move(m)`: `false` when chess.js rejects the move. */
    method Play(o: Oracle, m: string) returns (ok: bool)
      modifies this
      ensures remaining == old(remaining)
      ensures ok <==> o.move(old(position), m).Some?
      ensures ok ==> position == o.move(old(position), m).value
      ensures !ok ==> position == old(position)
    {
      var next := o.move(position, m);
      ok := next.Some?;
      if ok {
        position := next.value;
      }
    }

    /** Lines 200-221: decide legality and correctness, then play and pop the user's
        move and, when one remains, the scripted reply. `ok` is false when chess.js
        rejected a move on the way (the handler then answers with an error). */
    method Submit(o: Oracle, move: string) returns (ok: bool, isLegal: bool, isCorrect: bool)
      modifies this
      ensures isLegal == AnyMatches(o.moves(old(position)), move)
      ensures isCorrect == IsCorrect(old(remaining), move)
      ensures ok <==> Round(o, old(position), old(remaining), move).Some?
      ensures ok ==> Round(o, old(position), old(remaining), move) == Some(State(position, remaining))
    {
      isLegal := AnyMatches(o.moves(position), move);
      isCorrect := IsCorrect(remaining, move);
      ok := true;
      if isLegal && isCorrect {
        ok := Play(o, move);
        if !ok {
          return;
        }
        var userMove := Shift();
        if |remaining| > 0 {
          var botMove := remaining[0];
          ok := Play(o, botMove);
          if !ok {
            return;
          }
          var played := Shift();
        }
      }
    }
  }

  /** `POST` (lines 187-236). */
  method Post(o: Oracle, req: MoveRequest) returns (resp: Response<Verdict>)
    ensures resp == Verify(o, req)
  {
    if !Admissible(req) {
      return Failure(400, BadRequest);
    }
    var loaded := o.load(req.fen.value);
    if loaded.None? {
      return Failure(500, VerifyFailed);
    }
    var session := new PuzzleSession(loaded.value, req.remainingSolution.moves);
    var ok, isLegal, isCorrect := session.Submit(o, req.move.value);
    if !ok {
      return Failure(500, VerifyFailed);
    }
    resp := Ok(Verdict(o.fen(session.position), isLegal, isCorrect, session.remaining));
  }

  // ---------------------------------------------------------------------------
  // Several rounds against one puzzle

  /** Submits `attempts` one after the other, each from the state the previous one
      left; `None` once chess.js rejects a move it is asked to play. */
  function Session(o: Oracle, p: Position, rem: seq<string>, attempts: seq<string>): Option<State>
    decreases |attempts|
  {
    if attempts == [] then Some(State(p, rem))
    else
      match Round(o, p, rem, attempts[0])
      case None => None
      case Some(st) => Session(o, st.position, st.remaining, attempts[1..])
  }

  /** Replaying a concatenation replays the first part and then the second. */
  lemma {:induction false} ReplayAppend(o: Oracle, p: Position, a: seq<string>, b: seq<string>)
    ensures Replay(o, p, a + b) == if Replay(o, p, a).None? then None else Replay(o, Replay(o, p, a).value, b)
    decreases |a|
  {
    if a == [] {
      assert a + b == b;
    } else {
      assert (a + b)[0] == a[0] && (a + b)[1..] == a[1..] + b;
      match o.move(p, a[0])
      case None =>
      case Some(q) => ReplayAppend(o, q, a[1..], b);
    }
  }

  /** `st` is where following the solution `rem` from `p` leads: what remains is a
      suffix of `rem`, and the board is `p` with the dropped prefix replayed on it. */
  ghost predicate Follows(o: Oracle, p: Position, rem: seq<string>, st: State) {
    && |st.remaining| <= |rem|
    && st.remaining == rem[|rem| - |st.remaining|..]
    && Replay(o, p, rem[..|rem| - |st.remaining|]) == Some(st.position)
  }

  /** One round keeps the solution bookkeeping. */
  lemma RoundFollowsSolution(o: Oracle, p: Position, rem: seq<string>, move: string)
    ensures Round(o, p, rem, move).Some? ==> Follows(o, p, rem, Round(o, p, rem, move).value)
  {
    if !(AnyMatches(o.moves(p), move) && IsCorrect(rem, move)) {
      assert rem[..0] == [] && rem[0..] == rem;
    }
  }

  /** Two steps that each consume a prefix of what is left consume, together, a
      prefix of the original list. */
  lemma FollowsCompose(o: Oracle, p: Position, rem: seq<string>, mid: State, last: State)
    requires Follows(o, p, rem, mid) && Follows(o, mid.position, mid.remaining, last)
    ensures Follows(o, p, rem, last)
  {
    var j := |rem| - |mid.remaining|;
    var m := |mid.remaining| - |last.remaining|;
    assert rem[..j + m] == rem[..j] + mid.remaining[..m];
    ReplayAppend(o, p, rem[..j], mid.remaining[..m]);
  }

  /** However many moves are submitted, the remaining solution is a suffix of the
      original one, and the board is exactly the original board with the consumed
      prefix of the solution replayed on it: rejected attempts leave no trace. */
  lemma {:induction false} SessionFollowsSolution(o: Oracle, p: Position, rem: seq<string>, attempts: seq<string>)
    ensures Session(o, p, rem, attempts).Some? ==> Follows(o, p, rem, Session(o, p, rem, attempts).value)
    decreases |attempts|
  {
    if attempts == [] {
      assert rem[..0] == [] && rem[0..] == rem;
    } else {
      var first := Round(o, p, rem, attempts[0]);
      if first.Some? {
        var st := first.value;
        RoundFollowsSolution(o, p, rem, attempts[0]);
        SessionFollowsSolution(o, st.position, st.remaining, attempts[1..]);
        var r := Session(o, p, rem, attempts);
        assert r == Session(o, st.position, st.remaining, attempts[1..]);
        if r.Some? {
          FollowsCompose(o, p, rem, st, r.value);
        }
      }
    }
  }

  /** Once the solution is used up the puzzle is solved: every further move is
      rejected and changes nothing. */
  lemma SolvedIsTerminal(o: Oracle, p: Position, move: string)
    ensures Round(o, p, [], move) == Some(State(p, []))
  {
  }

  /** Submitting a rejected move again gives the same outcome again. */
  lemma RejectionIsIdempotent(o: Oracle, p: Position, rem: seq<string>, move: string)
    requires !(AnyMatches(o.moves(p), move) && IsCorrect(rem, move))
    ensures Session(o, p, rem, [move, move]) == Some(State(p, rem))
  {
    assert [move, move][1..] == [move] && [move][1..] == [];
    assert Session(o, p, rem, [move]) == Some(State(p, rem));
  }
}
