# Chess tutor: puzzle and coaching routes

This project models the server-side logic of a chess-tutoring web application.

- The puzzle endpoint (`app/api/puzzles/route.ts`):
  - loads a bank of puzzles from one CSV file per difficulty;
  - memoises the parsed bank in a process-wide table;
  - `GET` sets a random puzzle up by playing its first scripted move;
  - `POST` checks a submitted move against the remaining solution. A move that is both legal and correct is played, and so is the scripted reply when one remains.
- The coaching endpoint (`app/api/chess/route.ts`) shapes the answers of a remote engine and a language model:
  - it strips `<think>…</think>` reasoning;
  - it writes an evaluation as text;
  - it describes a move in words;
  - it picks the move out of the engine's `bestmove` line;
  - it dispatches on the request type.
- The client helpers (`lib/chess-utils.ts`) are near-copies of the coaching helpers. They are shown to agree with them, and the one input where they differ is pinned down.

The chess rules library (chess.js) is an opaque oracle (`ChessOracle.Oracle`):

- a board is an abstract `Position`;
- loading a FEN, printing a FEN, listing the legal moves, playing a move and looking up the pieces are total functions;
- no property assumes anything about how chess.js computes them, except `ChessUtils.MoveDescriptionOnOwnFen`, which requires that reloading a board's own FEN gives the same pieces.

Network answers, the language model's completion and `Math.random()` are parameters.

Modules:

- `Wrappers`: option and response types.
- `JsText`: the JavaScript string built-ins the code relies on: `split`, `trim`, `substring`, `toLowerCase`, `parseInt` and integer printing.
- `ChessOracle`: the chess.js interface.
- `PuzzleRoute`: CSV parse, cache, `GET`, `POST`.
  - The in-place parts are imperative. The cache is the class `PuzzleCache`, whose `entries` map the loader updates.
  - A `POST` call's board and solution array are the class `PuzzleSession`. `Shift` and `Play` have their own contracts, and `Submit`, built on them, is proved against the pure specification `Round`.
- `ChessRoute`: the coaching route.
- `ChessUtils`: the client helpers.

## Model

| member | source | states |
|---|---|---|
| JsText.Split | app/api/puzzles/route.ts:118-124 | `split` with a one-character separator yields at least one part, and no part contains the separator |
| JsText.JoinSplit | app/api/puzzles/route.ts:118-124 | joining the parts of a split with the separator gives back the text, so the split drops nothing but separators |
| JsText.SplitJoin | app/api/puzzles/route.ts:118-124 | splitting the join of separator-free parts gives back the parts |
| JsText.SplitTrailingSeparator | app/api/puzzles/route.ts:118 | a text ending with the separator splits into one more part than the text without it, and that part is empty |
| JsText.Trim | app/api/puzzles/route.ts:122-125 | `trim` yields the slice of the input left after removing only trimmable characters from both ends; no whitespace or line terminator remains at either end; it is empty exactly when the input is all whitespace, and leaves a trimmed text alone |
| JsText.TrimIdempotent | app/api/puzzles/route.ts:122 | trimming twice is trimming once |
| JsText.Substring | app/api/chess/route.ts:48-51 | `substring(start, end)` is the slice when it fits, the rest of the text from `start` when only `end` is past the end, empty when `start` is past the end, and has the clamped length |
| JsText.ToLower | app/api/puzzles/route.ts:143 | `toLowerCase` keeps the length and lower-cases each ASCII letter in place |
| JsText.DigitRun | app/api/puzzles/route.ts:125 | the run `parseInt` reads is the longest all-digit prefix |
| JsText.NatToString | app/api/chess/route.ts:38 | the printed count is a non-empty string of digits, with a leading `0` only for zero itself |
| JsText.DigitsValueOfNatToString | app/api/chess/route.ts:38 | the digits printed for `n` denote `n` |
| JsText.ParseDigits | app/api/puzzles/route.ts:125 | a number is read exactly when the text starts with a digit |
| JsText.ParseInt | app/api/puzzles/route.ts:125 | `parseInt` gives a number exactly when, after leading whitespace, a digit follows (optionally after one sign); a leading `-` gives a non-positive value, anything else a non-negative one |
| JsText.ParseSigned | app/api/puzzles/route.ts:125 | after the whitespace, a number is read exactly when a digit starts the text or follows one sign, and its sign follows the `-` |
| JsText.ParseSignedOfDigits | app/api/puzzles/route.ts:125 | an optional sign and a run of digits followed by a non-digit read as the run's value, negated after `-` |
| JsText.ParseIntOfSigned | app/api/puzzles/route.ts:125 | `parseInt` on whitespace, an optional sign, a digit run and any non-digit text reads the run's decimal value, negated after `-` |
| JsText.ParseIntOfDigits | app/api/puzzles/route.ts:125 | a run of digits followed by a non-digit or by nothing reads as the run's decimal value |
| JsText.DigitRunOfPrefix | app/api/puzzles/route.ts:125 | the digit run stops exactly where a non-digit follows the digits |
| JsText.ParseIntOfNatToString | app/api/puzzles/route.ts:125 | `parseInt` reads back any printed non-negative integer, whatever non-digit text follows |
| ChessOracle.UpperLetter | app/api/chess/route.ts:58 | the upper-cased piece letter is `K` exactly for the king, and different piece types give different letters |
| PuzzleRoute.ParseRow | app/api/puzzles/route.ts:120-126 | a row yields a puzzle exactly when it has at least three comma fields (else `trim` of `undefined` throws); the puzzle has a trimmed FEN and at least one move, none containing a space |
| PuzzleRoute.ParseRowFields | app/api/puzzles/route.ts:120-126 | the FEN is the trimmed first field, the moves join back into the trimmed second field, the rating is `parseInt` of the trimmed third |
| PuzzleRoute.ParseRows | app/api/puzzles/route.ts:119-127 | mapping the rows succeeds exactly when every row parses, and then gives one puzzle per row in order |
| PuzzleRoute.Rows | app/api/puzzles/route.ts:118 | the rows are the lines after the header: the header line and the rows, joined by newlines, give back the file |
| PuzzleRoute.ParseCsv | app/api/puzzles/route.ts:118-127 | the file parses exactly when every line after the header has three fields; then there is one well-formed puzzle per such line, in order |
| PuzzleRoute.TrailingNewlineFails | app/api/puzzles/route.ts:118-122 | a file ending with a newline has an empty last row, so its parse always throws |
| PuzzleRoute.CsvUrl | app/api/puzzles/route.ts:107-113 | `easy`, `medium` and `hard` get exactly their own repository CSV URL, and no other key has one |
| PuzzleRoute.Fetch | app/api/puzzles/route.ts:113-127 | a miss for a known difficulty whose file is fetched gives the parse of that file; it succeeds only then, and yields well-formed puzzles |
| PuzzleRoute.PuzzleCache.constructor | app/api/puzzles/route.ts:94-96 | the cache starts empty |
| PuzzleRoute.PuzzleCache.LoadPuzzles | app/api/puzzles/route.ts:102-131 | a hit returns the stored list and changes nothing; a miss returns the fetched parse and stores it only on success; no other difficulty's entry changes |
| PuzzleRoute.DifficultyOf | app/api/puzzles/route.ts:143 | the difficulty is the lower-cased parameter, or `easy` when the parameter is absent or empty |
| PuzzleRoute.PickIndex | app/api/puzzles/route.ts:146 | `Math.floor(Math.random() * n)` is a valid index whenever the list is non-empty, and 0 when it is empty |
| PuzzleRoute.SetUp | app/api/puzzles/route.ts:149-161 | the returned FEN is the puzzle's FEN with its first move played (unchanged for no moves); the opening move plus the returned rest is the whole solution; the rating is passed on |
| PuzzleRoute.Serve | app/api/puzzles/route.ts:146-169 | an empty bank is a 500; otherwise the answer is the set-up of the puzzle at the drawn index when chess.js accepts it, and a 500 when chess.js throws |
| PuzzleRoute.Get | app/api/puzzles/route.ts:140-170 | `GET` answers from the cached list or a fresh fetch of the requested difficulty; afterwards the cache holds exactly what it held plus the fetched list on a successful miss, and stays valid |
| PuzzleRoute.AnyMatches | app/api/puzzles/route.ts:201-202 | `isLegal` holds exactly when the move is some legal move's `from + to`, so only four characters spelling two squares can be legal |
| PuzzleRoute.PromotionNeverLegal | app/api/puzzles/route.ts:202 | a five-character promotion string such as `e7e8q` is never reported legal |
| PuzzleRoute.Round | app/api/puzzles/route.ts:198-221 | a move not both legal and correct changes nothing; an accepted move replays and drops the first `min(2, n)` solution moves, so the bot replies only when a move remains |
| PuzzleRoute.Verify | app/api/puzzles/route.ts:187-236 | 400 exactly for a missing or falsy field or a non-array solution; 500 exactly when chess.js throws (for a decoded body); 200 otherwise, with the board and list `Round` computes; `isLegal` and `isCorrect` as the route computes them; on rejection the board and the list come back unchanged; the list returned is always a suffix of the one sent |
| PuzzleRoute.PuzzleSession.constructor | app/api/puzzles/route.ts:198 | the session holds the loaded board and the request's solution array |
| PuzzleRoute.PuzzleSession.Shift | app/api/puzzles/route.ts:212 | `shift()` removes and returns the first element, and yields `undefined` on an empty array |
| PuzzleRoute.PuzzleSession.Play | app/api/puzzles/route.ts:210 | `board.move` advances the board exactly when chess.js accepts the move |
| PuzzleRoute.PuzzleSession.Submit | app/api/puzzles/route.ts:200-221 | the in-place check computes `isLegal` and `isCorrect` and leaves the board and array in the state `Round` specifies |
| PuzzleRoute.Post | app/api/puzzles/route.ts:187-236 | the handler built on the in-place session answers exactly what `Verify` specifies |
| PuzzleRoute.ReplayAppend | app/api/puzzles/route.ts:210-219 | playing two lists of moves in turn is playing their concatenation |
| PuzzleRoute.RoundFollowsSolution | app/api/puzzles/route.ts:208-221 | after one submission the remaining list is a suffix of the one before, and the board is the old board with the dropped moves played |
| PuzzleRoute.FollowsCompose | app/api/puzzles/route.ts:208-221 | two submissions that each consume a prefix of what is left consume, together, a prefix of the original solution, played in order |
| PuzzleRoute.SessionFollowsSolution | app/api/puzzles/route.ts:208-221 | over any sequence of submissions, the remaining list is a suffix of the original and the board is the original with the consumed prefix of the solution played |
| PuzzleRoute.SolvedIsTerminal | app/api/puzzles/route.ts:205-208 | with no moves left every submission is incorrect and changes nothing |
| PuzzleRoute.RejectionIsIdempotent | app/api/puzzles/route.ts:208-228 | resubmitting a rejected move changes nothing again |
| ChessRoute.CloseEnd | app/api/chess/route.ts:11 | the lazy `.*?</think>` scan ends right after a `</think>`, and no line terminator and no earlier `</think>` lies between the start and that tag |
| ChessRoute.CloseEndFails | app/api/chess/route.ts:11 | the scan fails when a line terminator, or the end of the text, comes before any `</think>` |
| ChessRoute.MatchAt | app/api/chess/route.ts:11 | a match starts with `<think>` and spans at least both tags |
| ChessRoute.Clean | app/api/chess/route.ts:10-12 | `clean` never lengthens the text |
| ChessRoute.CleanWithoutTag | app/api/chess/route.ts:10-12 | text with no `<think>` comes back unchanged |
| ChessRoute.CloseEndFinds | app/api/chess/route.ts:11 | inside a one-line block the lazy scan stops at the first `</think>` |
| ChessRoute.CleanDropsBlock | app/api/chess/route.ts:11 | a one-line `<think>…</think>` block is deleted, up to its first `</think>`, and cleaning continues after it |
| ChessRoute.CleanKeepsUnclosedBlock | app/api/chess/route.ts:11 | a `<think>` not closed before a line terminator or the end of the text is not matched: its `<` is kept and cleaning moves on by one character |
| ChessRoute.CleanAfterPlain | app/api/chess/route.ts:10-12 | text holding no `<` is kept as it is, and cleaning continues on what follows |
| ChessRoute.CleanDropsInnerBlock | app/api/chess/route.ts:10-12 | a one-line block after `<`-free text is deleted there too, and cleaning continues after it |
| ChessRoute.BrokenBlockKeepsOpenTag | app/api/chess/route.ts:11 | the `<` of a block whose body holds a line terminator and no `<` is kept |
| ChessRoute.CleanKeepsNonTag | app/api/chess/route.ts:10-12 | where no `<think>` begins, the character is kept and cleaning moves on by one |
| ChessRoute.MultiLineBlockSurvives | app/api/chess/route.ts:11 | a `<think>` block whose body holds a line terminator anywhere and no `<` survives cleaning whole, because `.` does not match a line terminator |
| ChessRoute.EvalString | app/api/chess/route.ts:35-43 | with a mate count the text starts `Mate in ` and names White exactly when the count is positive (Black for zero); otherwise it starts with the printed absolute evaluation and names white exactly when the evaluation is non-negative; its length leaves room for nothing between the start, the printed number and the side |
| ChessRoute.MateText | app/api/chess/route.ts:36-38 | the mate text starts `Mate in ` and names White exactly for a positive count, and is exactly as long as the prefix, the printed count and the side, so nothing else lies between them |
| ChessRoute.AdvantageText | app/api/chess/route.ts:39-42 | the advantage text starts with the printed magnitude and names white exactly for a non-negative evaluation, and is exactly as long as the magnitude and the side, so nothing else lies between them |
| ChessRoute.MateCountReadsBack | app/api/chess/route.ts:38 | the count after `Mate in ` reads back as the absolute mate count |
| ChessRoute.TextsDiffer | app/api/chess/route.ts:56-68 | the unknown, castling, capture and plain texts are told apart by how they begin |
| ChessRoute.MoveType | app/api/chess/route.ts:46-69 | a FEN that does not load throws; otherwise the text is unknown exactly for an empty from-square, castling exactly for a king playing a castling code, a capture naming both upper-cased letters exactly when the to-square is occupied, else a plain move |
| ChessRoute.SecondToken | app/api/chess/route.ts:27 | `split(" ")[1]` exists exactly when there are two tokens, and holds no space |
| ChessRoute.SecondTokenPicksMove | app/api/chess/route.ts:27 | in `bestmove <move> ponder …` the token picked is the move |
| ChessRoute.StockfishInfo | app/api/chess/route.ts:15-32 | fails exactly when the fetch fails, `success` is false or `bestmove` is absent; else the move is the second token and the evaluation and mate pass through |
| ChessRoute.KindOf | app/api/chess/route.ts:75 | exactly `analyze AI`, `assessment user` and `chat` are served |
| ChessRoute.Handle | app/api/chess/route.ts:71-162 | 400 exactly for an unserved type, every other failure a 500; each type succeeds exactly under its own conditions; an analysis carries the engine's move and its evaluation text; every reply is the cleaned completion |
| ChessRoute.ChatIgnoresEngine | app/api/chess/route.ts:135-153 | a chat answer depends on neither the board nor the engine |
| ChessUtils.MoveDescription | lib/chess-utils.ts:25-47 | the description obeys the same four-way classification as `getMoveType` |
| ChessUtils.ClassifiesIsUnique | lib/chess-utils.ts:32-46 | the classification determines the text completely |
| ChessUtils.MoveDescriptionAgrees | lib/chess-utils.ts:25-47 | `getMoveDescription` on a board equals `getMoveType` on any FEN that loads to the same pieces |
| ChessUtils.MoveDescriptionOnOwnFen | lib/chess-utils.ts:25-47 | in particular on the board's own FEN, when that reloads to the same pieces |
| ChessUtils.NonKingCastlingCodeFallsThrough | lib/chess-utils.ts:37-39 | a castling code played by a non-king is described as a capture or a plain move |
| ChessUtils.EmptyFromSquareIsUnknown | lib/chess-utils.ts:32 | an empty from-square gives `Unknown move` whatever the target |
| ChessUtils.EvaluationString | lib/chess-utils.ts:49-57 | `getEvaluationString` equals `getEvalString` on every input |
| ChessUtils.StockfishMove | lib/chess-utils.ts:3-23 | fails exactly when the fetch fails, `success` is false or `bestmove` is falsy; else the move is the second token |
| ChessUtils.StockfishHelpersAgree | lib/chess-utils.ts:14-19 | the two engine helpers agree on every reply whose `bestmove` is not empty |
| ChessUtils.StockfishHelpersDifferOnEmpty | lib/chess-utils.ts:14 | on an empty `bestmove` the client helper fails while the route's helper yields an undefined move |
| ChessUtils.AnalyzeMoveRequest | lib/chess-utils.ts:59-68 | the analysis request carries the FEN and the move, under a type the route does not serve |
| ChessUtils.AnalyzeRequestRejected | lib/chess-utils.ts:64 | the analysis request always gets the 400 answer |
| ChessUtils.AnalyzeMoveRequestFixed | lib/chess-utils.ts:64 | with type `analyze AI` the request is dispatched to the analysis branch |
| ChessUtils.AnalyzeRequestFixedServed | lib/chess-utils.ts:64 | with the served type an analysis comes back exactly when the engine names a describable move and the model answers |
| ChessUtils.AssessmentRequest | lib/chess-utils.ts:78-88 | the assessment request carries the FEN and the move under a served type |

## Left out

- Network calls are parameters:
  - the CSV download is `fetchText`, the body served at a URL or `None`;
  - the engine service's JSON is an `EngineReply` or `None`;
  - the language model's completion is a `Completion`.
- The prompts sent to the language model are not modelled. This includes the unused prompt `p` of the assessment branch.
- The chess rules are not modelled: move generation and FEN parsing and printing. chess.js answers through the abstract `Oracle`.
- `board.move` on a rejected move is treated as throwing, as chess.js 1.x does. The route's `catch` then answers 500.
- `Math.random()` is the parameter `random`, a real in [0, 1). Floating-point rounding of the product is not modelled.
- Request bodies are typed:
  - a field holding a non-string JSON value is not modelled;
  - neither is a solution array holding non-strings.
  - `fen` in the coaching route is always a string.
- The cache and the URL table are plain maps. JavaScript object prototype keys such as `constructor` are not modelled.
- `toLowerCase` and `toUpperCase` are modelled on ASCII letters only.
- `parseInt` is modelled on unbounded integers. Precision loss on very long digit runs is not modelled.
- ChessRoute.EvalString: the printing of a floating-point evaluation is the parameter `show`. The contract states the magnitude's position, the side and the total length, not the digits.
- A `POST` body that is not JSON, or is JSON `null`, makes `req.json()` or the destructuring throw, and both routes answer 500. Request bodies are modelled as already-decoded objects, so this 500 is not modelled.
- An engine reply without a `mate` field (`undefined` rather than `null`) is not modelled.
- The `continuation` field that `getStockfishInfo` passes through is not modelled. No caller reads it.
- ChessRoute.Clean: its own contract only bounds the length. What it deletes and keeps is stated by the lemmas beside it: a one-line block after `<`-free text is deleted, an unclosed or line-broken `<think>` keeps its `<`, and a multi-line block with no `<` survives whole. `ChessRoute.CleanKeepsNonTag` keeps any character that does not open a block, so a text mixing several blocks with other `<` characters is covered by applying these lemmas from left to right.
- Other code outside this model:
  - the commented-out earlier puzzle route (app/api/puzzles/route.ts:1-86);
  - the React pages and components;
  - app/api/stockfish/route.ts and app/api/chat/route.ts;
  - the type declaration files.
- `analyzeMoveWithAI` and `userMoveAssessment` are modelled only as the request bodies they send. The fetch and the `response.ok` check are not modelled.

## Findings

| source | as written | input that shows it | evidently intended | confidence | as-written member | corrected member |
|---|---|---|---|---|---|---|
| lib/chess-utils.ts:64 | `analyzeMoveWithAI` posts `type: "analyze"`, which the coaching route's switch (app/api/chess/route.ts:75-156) does not serve | any FEN and move: the route answers 400 `Invalid request type` | the served type `analyze AI`, which reaches the analysis branch | high; not executed | ChessUtils.AnalyzeRequestRejected | ChessUtils.AnalyzeRequestFixedServed |
