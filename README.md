# CastledChess engine core in Dafny

This project models three self-contained parts of the CastledChess UCI chess
engine and proves properties of each.

- **The UCI command dispatcher** (`src/uci.rs`), in `uci.dfy`. It also uses
  `tokens.dfy` (Rust's `split_whitespace`) and `numerals.dfy` (Rust's
  `str::parse::<u32>` / `<u64>`).
  - A command line is split into tokens and put into a FIFO queue (`TokenQueue`).
  - The first token selects a handler. The handlers take their operands from the
    same queue.
  - `go` re-enters `handle_go` after every sub-command.
  - The `position` handlers drain the `moves` list with a loop.
  - `UciController` holds:
    - the search settings (`depth`, `time_control`, `wtime`, `btime`, `movetime`, `game`);
    - a log of the printed lines;
    - a snapshot of the settings for every `search.go()` call;
    - an `exited` flag for `quit`.
  - Every handler is a method that states its new state in its postcondition.
    The dispatching handlers tie it to a pure function of the old state and
    the tokens: `Respond` for `parse_command`/`parse_tokens`, `RunGo` for `go`
    and its sub-commands, `Position` for `position`, `SetOption` for
    `setoption`. The handlers of `uci`, `isready`, `quit`, `ucinewgame`,
    `position startpos`, `position fen` and the move-list check state their
    effect on the settings, the output and the queue directly.
  - Lemmas about those functions state what the protocol promises:
    - exactly one search per well-formed `go` line;
    - the last writer wins;
    - `depth` is truncated to 32 bits;
    - `infinite` is a no-op;
    - unknown tokens are only reported;
    - `setoption` never touches the search.
- **The piece-square evaluator** (`src/eval.rs`), in `eval.dfy`.
  - `Eval` is a class with the two 6 x 64 tables as `array2<int>`.
  - `Default` and `Init` fill the tables with nested loops. `SimpleEval` sums
    the entries of the board's pieces with a loop.
  - Both are proved against the pure functions `InitialTables` and `Evaluation`.
  - The lemmas state:
    - additivity;
    - independence from piece order;
    - the side-to-move sign;
    - the `i32` bound;
    - the vertical mirror between the black and white pawn, knight and king tables,
      and the fact that it fails for rooks.
- **The time controller** (`engine/src/time_control/time_controller.rs`), in
  `time_controller.dfy`.
  - `TimeController` is a class whose methods update `play_time` and `start_time`.
  - The wall clock is an explicit `now` argument, and the atomic stop flag is a
    plain field.
  - `elapsed as u128` is modelled as wrap-around modulo 2^128.

`chess.dfy` holds the few chess notions the core passes around:
- the side to move;
- a symbolic `Game` (the initial position, or a position given by a FEN token);
- `Rules`, the rules library's answers to "does this FEN parse" and "is this move legal here".

`optional.dfy` holds an `Option` type.

### Behaviour of the code that the model keeps

Some of what the code does is easy to misread, and the model keeps it as written:
- **Moves in `position`.** Each move in a `position ... moves` list is parsed and
  played on a fresh clone of the stored position, and the result is dropped. The
  stored game stays the start or FEN position. Every move is checked against that
  same position, not against the position reached so far. An unparsable or illegal
  move panics; the command is not rejected. `MovesOk` and `CheckMoves` model this.
- **FEN.** `position fen` takes a single whitespace token as the FEN text.
- **Malformed commands.** An empty line, a missing operand or a non-numeric operand
  panics through `unwrap`. These cases are preconditions (`CommandOk`,
  `GoOperandsOk`). They are not modelled as reported errors.
- **`stop`.** `stop` is not among the dispatched commands, so it is answered with
  `Unknown command: stop`.
- **`setoption`.** `setoption` takes exactly four tokens without checking the
  `name`/`value` keywords. It only prints a line. It changes no setting.
- **Unknown `go` sub-command.** An unknown `go` sub-command stops the parse: the
  updates made before it are kept, and no search starts.
- **Colour tables.** The black bishop, rook and queen tables are not mirror images
  of the white ones. Only pawn, knight and king are mirrored.

## Model

| member | source | states |
|---|---|---|
| `Uci.UciController.ParseCommand` | src/uci.rs:31-40 | the line is split on Unicode whitespace, every token is queued in order by the loop, and the new state is `Respond` of the old state and those tokens |
| `Uci.UciController.ParseTokens` | src/uci.rs:42-55 | the first token selects `uci`, `isready`, `quit`, `setoption`, `ucinewgame`, `position` or `go`; any other token prints `Unknown command: <tok>`; the new state is `Respond` of the old one |
| `Uci.UciController.HandleGo` | src/uci.rs:57-74 | the new state is `RunGo` of the old state and the queued tokens, and the queue is left holding what follows the unknown sub-command (nothing, when the line ends and the search starts) |
| `Uci.UciController.HandleBTime` | src/uci.rs:76-85 | consumes the u32 operand, sets `btime`, `WOrBTime` and depth 1000, then continues with `handle_go` |
| `Uci.UciController.HandleWTime` | src/uci.rs:87-96 | consumes the u32 operand, sets `wtime`, `WOrBTime` and depth 1000, then continues with `handle_go` |
| `Uci.UciController.HandleGoDepth` | src/uci.rs:98-106 | consumes the u64 operand, sets depth to it truncated to u32 and the time control to none, then continues with `handle_go` |
| `Uci.UciController.HandleGoMovetime` | src/uci.rs:108-117 | consumes the u32 operand, sets `movetime`, `MoveTime` and depth 1000, then continues with `handle_go` |
| `Uci.UciController.HandleGoInfinite` | src/uci.rs:184-189 | changes nothing and continues with `handle_go` |
| `Uci.UciController.HandlePosition` | src/uci.rs:119-129 | `startpos` and `fen` go to their handlers; any other token prints `Unknown position command: <tok>`; the new state is `Position` of the old one |
| `Uci.UciController.HandlePositionStartpos` | src/uci.rs:131-146 | the stored game becomes the initial position and stays so; the queue is drained when `moves` follows and otherwise loses one token |
| `Uci.UciController.HandlePositionFen` | src/uci.rs:148-166 | the stored game becomes the position of the next token, which the rules library must accept; the move list is treated as for `startpos` |
| `Uci.UciController.CheckMoves` | src/uci.rs:153-165 | after `moves`, a loop takes every remaining token and checks it is legal in the stored game, which it never changes; any other token ends the command |
| `Uci.UciController.HandleSetoption` | src/uci.rs:168-182 | takes exactly four tokens; the new state is `SetOption` of the old one |
| `Uci.UciController.HandleUcinewgame` | src/uci.rs:191-194 | the state is unchanged |
| `Uci.UciController.HandleIsready` | src/uci.rs:196-200 | appends `readyok` to the output and changes nothing else |
| `Uci.UciController.HandleQuit` | src/uci.rs:202-204 | only sets the exited flag |
| `Uci.UciController.HandleUci` | src/uci.rs:206-223 | appends the engine name and author lines to the output and changes nothing else |
| `Uci.UciController.constructor` | src/uci.rs:26-28 | the dispatcher starts with the given settings, no output and no search |
| `Uci.TokenQueue.Add` | src/uci.rs:35-37 | a token is appended at the back of the queue |
| `Uci.TokenQueue.Remove` | src/uci.rs:58-60 | removes the front token, or fails on an empty queue and leaves it empty |
| `Uci.ParseGo` | src/uci.rs:57-74 | reads recognised sub-commands with their operands until an unknown token (which is never a keyword) or the end; what is left is a suffix that is empty when no unknown token stopped the parse |
| `Uci.GoOperandsOk` | src/uci.rs:57-117 | the `go` operands the handlers unwrap are present and parse; an unknown sub-command first never panics, whatever follows it; a recognised one other than `infinite` needs an operand |
| `Uci.ApplyAll` | src/uci.rs:57-117 | the sub-commands applied left to right, as each handler re-enters `handle_go`; the stored game is never changed |
| `Uci.RunGo` | src/uci.rs:57-74 | the effect of `go`: the game and the exited flag are kept, and either one search with the final settings starts and nothing is printed, or no search starts and one line is appended |
| `Uci.ApplyGo` | src/uci.rs:76-117 | `btime`/`wtime` set their clock, `WOrBTime` and depth 1000 and keep the other clock and `movetime`; `depth n` sets depth to n mod 2^32 and no time control and keeps all clocks; `movetime` sets it, `MoveTime` and depth 1000; `infinite` changes nothing; the game is never changed |
| `Uci.MovesOk` | src/uci.rs:140-165 | the move list panics only through a move: no list, a bare `moves` or another token never panics; after `moves`, every move, the last included, must be legal in the stored game itself |
| `Uci.PositionOk` | src/uci.rs:119-166 | the position command does not panic: its tokens are present, a FEN must be accepted by the rules library, and an unknown sub-command never panics |
| `Uci.Position` | src/uci.rs:119-166 | `startpos` and `fen <F>` set only the stored game; any other sub-command prints one line and changes no setting; no search starts |
| `Uci.SetOption` | src/uci.rs:168-182 | never changes settings or searches; an empty name or value prints nothing; otherwise exactly one line is appended: `info string set move overhead` for `MoveOverhead`, `info string unknown option: <name>` for any other name |
| `Uci.ParseRenderGo` | src/uci.rs:57-117 | reading the tokens that spell out any list of sub-commands, followed by any tail, gives back exactly that list, then the tail's parse |
| `Uci.KnownGoSearchesOnce` | src/uci.rs:57-74 | a `go` line made only of recognised sub-commands starts exactly one search, with the settings the sub-commands produce, and prints nothing |
| `Uci.UnknownGoStops` | src/uci.rs:67 | an unknown sub-command prints `Unknown go command: <tok>`, starts no search and keeps the updates made before it |
| `Uci.GoSearchesIffKnown` | src/uci.rs:57-74 | `go` starts a search exactly when no unknown sub-command stops it, never more than one, prints one line exactly when it does not search, and never changes the game |
| `Uci.ApplyAllAppend` | src/uci.rs:84 | sub-commands compose left to right |
| `Uci.InfiniteIsNoOp` | src/uci.rs:184-189 | removing an `infinite` anywhere in the list gives the same settings |
| `Uci.LastTimedCommandWins` | src/uci.rs:80-114 | the final time control and depth are those of the last `depth`, `movetime`, `wtime` or `btime` |
| `Uci.ClocksKept` | src/uci.rs:76-117 | without a `wtime` (`btime`, `movetime`) sub-command that field keeps its value |
| `Uci.LastClockWins` | src/uci.rs:76-117 | each clock field holds the operand of the last sub-command that writes it |
| `Uci.CommandOk` | src/uci.rs:42-55 | the line does not panic: it has a first token; an unknown first token and `uci`, `isready`, `quit` and `ucinewgame` never panic |
| `Uci.Respond` | src/uci.rs:42-55 | the effect of one command line, dispatched on its first token: only `quit` sets the exited flag, the printed log only grows, and only `position` changes the stored game |
| `Uci.UnknownCommandOnlyReports` | src/uci.rs:53 | an unknown first token appends `Unknown command: <tok>` and changes nothing else |
| `Uci.OnlyGoSearches` | src/uci.rs:45-54 | only `go` starts a search, at most one per command, and only `position` and `go` change the settings |
| `Uci.SetOptionReportsOnce` | src/uci.rs:168-182 | on a tokenised line no token is empty, so `setoption` always prints exactly one line and never touches settings or searches |
| `Uci.StartposSetsInitialPosition` | src/uci.rs:131-146 | `position startpos ...` leaves the initial position stored, whatever follows, and changes nothing else |
| `Uci.GoLineSearchesOnce` | src/uci.rs:31-74 | a typed `go` line of recognised sub-commands, split on whitespace, starts exactly one search with their settings |
| `Tokens.Split` | src/uci.rs:32 | splitting the rest of a line while a word is being read yields only non-empty tokens free of whitespace |
| `Tokens.SplitWhitespace` | src/uci.rs:32 | every token is non-empty and free of Unicode whitespace |
| `Tokens.SplitJoin` | src/uci.rs:32 | splitting words joined by single spaces gives the words back |
| `Tokens.LeadingWhitespaceIgnored` | src/uci.rs:32 | leading whitespace does not change the tokens |
| `Tokens.BlankLineHasNoTokens` | src/uci.rs:32 | a line of whitespace alone has no tokens, so it cannot be dispatched |
| `Numerals.ParseUnsigned` | src/uci.rs:78 | a parsed value is below the type's bound; the empty string, a lone `+` and any `-` are refused; after an optional `+` only digits are accepted |
| `Numerals.ParseSpelled` | src/uci.rs:78 | a parse accepts s with value v exactly when v is in range and s is an optional `+`, any number of zeros and then the decimal rendering of v |
| `Numerals.ParseU32Spelled` | src/uci.rs:78 | `parse::<u32>` accepts exactly the spellings of the values below 2^32, each with the value it spells |
| `Numerals.ParseU64Spelled` | src/uci.rs:100 | `parse::<u64>` accepts exactly the spellings of the values below 2^64, each with the value it spells |
| `Numerals.DigitsValue` | src/uci.rs:78 | the decimal value of a digit string, left to right; a string starting with a digit other than 0 has a positive value |
| `Numerals.Show` | src/uci.rs:78 | the decimal rendering of a number: non-empty digits with no leading zero except for 0 itself |
| `Numerals.ShowValue` | src/uci.rs:78 | the decimal rendering of a number reads back as that number |
| `Numerals.ParseShow` | src/uci.rs:78 | parsing the rendering of an in-range number, with or without `+`, gives it back, and an out-of-range one is refused |
| `Numerals.LeadingZerosAccepted` | src/uci.rs:78 | any number of leading zeros, with or without `+`, is accepted and does not change the value |
| `Eval.Eval.Default` | src/eval.rs:14-23 | fresh tables that hold exactly what `init` writes |
| `Eval.Eval.Init` | src/eval.rs:27-48 | every entry becomes base value plus table bonus, whatever the tables held before, so a second call changes nothing |
| `Eval.Eval.SimpleEval` | src/eval.rs:50-63 | the loop sum over the pieces, negated for Black to move, equals `Evaluation` of the initial tables; every step stays in the `i32` range; the tables are not modified |
| `Eval.Eval.Valid` | src/eval.rs:27-47 | the tables have the 6 x 64 shape and hold exactly what `init` writes |
| `Eval.MaterialValue` | src/eval.rs:30-38 | 100 to 20000 for the six roles, 0 for the source's fallback |
| `Eval.WhiteEntry` | src/eval.rs:42-43 | what `init` stores for White at a role and square: the material value plus the white table's bonus at that square; `Init` is proved to store exactly this |
| `Eval.BlackEntry` | src/eval.rs:44-45 | what `init` stores for Black at a role and square: the material value plus the black table's bonus at that square; `Init` is proved to store exactly this |
| `Eval.EntriesNearMaterial` | src/eval.rs:39-46 | every entry `init` writes is its role's material value give or take 50 |
| `Eval.InitialTables` | src/eval.rs:28-46 | entry [r][s] is 100, 320, 330, 500, 900 or 20000 for r = 0..5, plus the table bonus of that colour |
| `Eval.PieceScore` | src/eval.rs:56-59 | a piece's share of the loop sum: with the initial tables, a white piece always adds and a black piece always subtracts |
| `Eval.BoardScore` | src/eval.rs:51-60 | the running sum of the loop over the pieces in board order; `SimpleEval`'s loop invariant is this sum of the pieces visited so far |
| `Eval.Evaluation` | src/eval.rs:50-63 | the value `simple_eval` returns, the reference `SimpleEval` is proved equal to; its sign, additivity, order independence and bound are the lemmas below |
| `Eval.TablesShape` | src/eval.rs:67-192 | both constant tables hold six roles of 64 squares, eight ranks of eight |
| `Eval.BoardScoreAppend` | src/eval.rs:53-60 | the score is additive over any split of the board |
| `Eval.BoardScoreRemove` | src/eval.rs:53-60 | removing one piece removes exactly its share |
| `Eval.BoardScorePermutation` | src/eval.rs:53-60 | the score does not depend on the order in which the pieces are visited |
| `Eval.EmptyBoardIsEven` | src/eval.rs:51-62 | an empty board evaluates to 0 for either side to move |
| `Eval.SideToMoveNegates` | src/eval.rs:62 | the Black-to-move score is the negated White-to-move score |
| `Eval.BoardScoreBound` | src/eval.rs:53-60 | with entries bounded by m, the running sum is bounded by m per piece |
| `Eval.DistinctSquaresBelow` | src/eval.rs:53 | pieces on pairwise different squares below n number at most n |
| `Eval.BoardAtMost64Pieces` | src/eval.rs:53 | a board holds at most 64 pieces |
| `Eval.BonusBounds` | src/eval.rs:67-192 | every positional bonus lies in -50..50 |
| `Eval.InitialEntriesBounded` | src/eval.rs:27-47 | every entry `init` writes lies within 20050 of zero |
| `Eval.PrefixScoreFitsI32` | src/eval.rs:51-60 | every running sum of the loop over a board lies within 64 x 20050 of zero, inside the `i32` range |
| `Eval.EvaluationFitsI32` | src/eval.rs:50-63 | the evaluation of any board fits an `i32` |
| `Eval.PawnTablesMirrored` | src/eval.rs:132-141 | the black pawn table is the white one with its ranks reversed |
| `Eval.KnightTablesMirrored` | src/eval.rs:142-151 | the black knight table is the white one with its ranks reversed |
| `Eval.KingTablesMirrored` | src/eval.rs:182-191 | the black king table is the white one with its ranks reversed |
| `Eval.BlackMirrorsWhite` | src/eval.rs:131-192 | for pawn, knight and king, Black's entry on s equals White's entry on s ^ 56 |
| `Eval.MirrorPieceNegates` | src/eval.rs:56-58 | for those roles, a piece of the other colour on the mirrored square contributes the negated share |
| `Eval.MirrorBoardNegates` | src/eval.rs:53-60 | on boards of pawns, knights and kings, swapping colours and mirroring the board negates the score |
| `Eval.MirroredKingsBalance` | src/eval.rs:50-63 | a white king on s and a black king on s ^ 56 evaluate to 0 for either side to move |
| `Eval.RookTablesNotMirrored` | src/eval.rs:162-171 | a white rook on d1 and a black rook on d8 evaluate to 5, not 0 |
| `TimeControl.PlayTime` | engine/src/time_control/time_controller.rs:22-29 | fixed move time in `MoveTime`; in `WOrBTime` the side to move's clock divided by the divisor, rounded down; 0 in every mode without a deadline |
| `TimeControl.PlayTimeWithinClock` | engine/src/time_control/time_controller.rs:24-27 | the clock share never exceeds the side to move's remaining time, and equals it for divisor 1 |
| `TimeControl.IsFinite` | engine/src/time_control/time_controller.rs:43-45 | the modes with a deadline, `MoveTime` and `WOrBTime`, the only ones `is_time_up` compares against the budget |
| `TimeControl.AsU128` | engine/src/time_control/time_controller.rs:49 | `as u128` keeps an elapsed time below 2^128, wraps a negative one by adding 2^128, and is always congruent to its argument modulo 2^128 |
| `TimeControl.TimeController.Default` | engine/src/time_control/time_controller.rs:53-62 | `Infinite`, budget 0, not stopped, started now |
| `TimeControl.TimeController.Start` | engine/src/time_control/time_controller.rs:17-19 | only the start time changes, to now, so afterwards `elapsed` at any time t is t - now |
| `TimeControl.TimeController.Setup` | engine/src/time_control/time_controller.rs:21-32 | the budget is `PlayTime` of the controller's own mode and the start time is now, so `elapsed` at t is t - now; mode and stop flag are untouched |
| `TimeControl.TimeController.Elapsed` | engine/src/time_control/time_controller.rs:34-36 | milliseconds from the start time to now; after `Start` or `Setup` at now, it is 0 then and grows one for one with the clock |
| `TimeControl.TimeController.IsTimeUp` | engine/src/time_control/time_controller.rs:38-50 | a set stop flag means up; a mode without deadline means not up; otherwise up exactly when `Elapsed` exceeds the budget for 0 <= elapsed < 2^128, and exactly when elapsed + 2^128 exceeds it for a negative elapsed time |
| `TimeControl.TimeUpIsStable` | engine/src/time_control/time_controller.rs:47-49 | from a non-negative elapsed time below 2^128, once up it stays up as the clock moves forward |
| `TimeControl.NotUpAtStart` | engine/src/time_control/time_controller.rs:47-49 | with the stop flag clear, zero elapsed time is never up |
| `TimeControl.ExactBudgetIsNotUp` | engine/src/time_control/time_controller.rs:49 | elapsing exactly the budget is not up; one more millisecond is, unless the budget is 2^128-1 |
| `TimeControl.DefaultNeverTimeUp` | engine/src/time_control/time_controller.rs:53-62 | the default controller is never up, whatever the clock |
| `TimeControl.ClockStepBackIsTimeUp` | engine/src/time_control/time_controller.rs:47-49 | a clock that steps back before the start wraps to a huge elapsed time and reports a finite-mode search as up |

## Left out

- Printing: every `println!` becomes an entry of an output log of lines. Standard input, the read loops of the two `main` files and the wasm/console glue are not part of this model.
- `search.go()`: the search itself is not part of this model. Each call is recorded as a snapshot of the settings it would run with.
- `Search::default`: it is not part of this model, so the dispatcher's initial settings are a constructor argument.
- The variants of `TimeControl`: only the three the dispatcher assigns are modelled (`None`, written `NoControl`, plus `WOrBTime` and `MoveTime`).
- The chess rules library's FEN parsing, UCI move parsing and legality are not part of this model. They are the `Rules` oracle of function values, used only to decide which inputs panic. `Chess::default` is the symbolic `StartPosition`; a parsed FEN is `FromFen(token)`.
- Board contents: board iteration is a sequence of (square, colour, role) pieces with distinct squares, and `game.turn()` is a parameter.
- Panics: every `unwrap()` on a missing token, a non-numeric operand, a rejected FEN or an illegal move is a precondition, not modelled behaviour. So is a zero time divisor.
- `quit`: `std::process::exit` becomes an `exited` flag. The model does not stop later calls.
- `Config`: `tc_time_divisor` is a parameter of `Setup`.
- `TimeMode`: the definition of `TimeMode` and of `TimeMode::is_finite` (time_mode.rs) is not part of this model. The modes are taken as `MoveTime`, `WOrBTime`, `Infinite` and a depth-only mode, and only the first two are finite.
- Threads: the cross-thread visibility of the atomic stop flag and the `Local::now()` clock are not modelled. The flag is a plain field and the clock is an argument.
- Timestamps: milliseconds are unbounded integers, so the `i64` overflow of `now - start_time` is not modelled. Only the `as u128` wrap of a negative difference is.
- TimeControl.TimeUpIsStable: stated only for elapsed times from 0 up to 2^128. Beyond 2^128 the `u128` cast wraps and the time is no longer up. A clock stepped back before the start reads as up (`ClockStepBackIsTimeUp`) and stops being up once it reaches the start again, so being up is not stable across the start.
- TimeControl.TimeController.IsTimeUp: its exact comparison is stated for elapsed times in -2^128..2^128, which holds every difference of two `i64` timestamps. Beyond that range only `AsU128`'s congruence describes the cast.
