/** The UCI command dispatcher of src/uci.rs. A command line is split into a
    FIFO queue of tokens; the first token selects a handler, and the handlers
    take their operands from the same queue. The dispatcher only changes the
    engine's search settings; everything it prints is appended to an output
    log, and every call of `search.go()` appends a snapshot of the settings it
    runs with to a search log. */
module Uci {
  import opened Optional
  import opened Numerals
  import opened Tokens
  import opened Chess

  /** The dispatcher's view of the search's time control: depth only (the
      source's `TimeControl::None`), a share of the clocks, or a fixed time. */
  datatype TimeControl = NoControl | WOrBTime | MoveTime

  /** The search settings the dispatcher writes. */
  datatype Search = Search(depth: U32, timeControl: TimeControl, wtime: U32, btime: U32,
                           movetime: U32, game: Game)

  /** Everything a command can change: the settings, the printed lines, the
      settings of every search started, and whether the process has exited. */
  datatype Session = Session(search: Search, output: seq<string>, searches: seq<Search>,
                             exited: bool)

  /** The depth `wtime`, `btime` and `movetime` set. */
  const TIMED_DEPTH: U32 := 1000

  // ---------------------------------------------------------------------
  // The `go` sub-commands

  /** A recognised `go` sub-command with its operand. */
  datatype GoCommand = GoBTime(ms: U32) | GoWTime(ms: U32) | GoDepth(plies: U64) | GoMoveTime(ms: U32)
                     | GoInfinite

  predicate IsGoKeyword(t: string) {
    t == "btime" || t == "wtime" || t == "depth" || t == "movetime" || t == "infinite"
  }

  /** The `go` operands are present and parse, up to the first unknown
      sub-command; a missing or malformed operand is an `unwrap` panic. */
  predicate GoOperandsOk(toks: seq<string>)
    ensures |toks| > 0 && !IsGoKeyword(toks[0]) ==> GoOperandsOk(toks)
    ensures GoOperandsOk(toks) && |toks| > 0 && IsGoKeyword(toks[0]) && toks[0] != "infinite" ==>
      |toks| > 1
    decreases |toks|
  {
    if |toks| == 0 then true
    else if toks[0] == "infinite" then GoOperandsOk(toks[1..])
    else if toks[0] == "btime" || toks[0] == "wtime" || toks[0] == "movetime" then
      |toks| > 1 && ParseU32(toks[1]).Some? && GoOperandsOk(toks[2..])
    else if toks[0] == "depth" then
      |toks| > 1 && ParseU64(toks[1]).Some? && GoOperandsOk(toks[2..])
    else true
  }

  /** How `handle_go` reads the tokens after `go`: the recognised commands in
      order, the unknown token that stopped it (if any), and what is left. */
  datatype GoParse = GoParse(commands: seq<GoCommand>, unknown: Option<string>, rest: seq<string>)

  function Prepend(c: GoCommand, p: GoParse): GoParse {
    p.(commands := [c] + p.commands)
  }

  function ParseGo(toks: seq<string>): (p: GoParse)
    requires GoOperandsOk(toks)
    ensures p.unknown.Some? ==> !IsGoKeyword(p.unknown.value)
    ensures p.unknown.None? ==> p.rest == []
    ensures |p.rest| <= |toks| && p.rest == toks[|toks| - |p.rest|..]
    decreases |toks|
  {
    if |toks| == 0 then GoParse([], None, [])
    else if toks[0] == "infinite" then
      var later := ParseGo(toks[1..]);
      SuffixOfTail(toks, 1, later.rest);
      Prepend(GoInfinite, later)
    else if !IsGoKeyword(toks[0]) then GoParse([], Some(toks[0]), toks[1..])
    else
      var later := ParseGo(toks[2..]);
      SuffixOfTail(toks, 2, later.rest);
      var c := if toks[0] == "btime" then GoBTime(ParseU32(toks[1]).value)
               else if toks[0] == "wtime" then GoWTime(ParseU32(toks[1]).value)
               else if toks[0] == "depth" then GoDepth(ParseU64(toks[1]).value)
               else GoMoveTime(ParseU32(toks[1]).value);
      Prepend(c, later)
  }

  /** A suffix of a tail is a suffix of the whole sequence. */
  lemma SuffixOfTail<T>(xs: seq<T>, k: nat, rest: seq<T>)
    requires k <= |xs| && |rest| <= |xs| - k && rest == xs[k..][|xs| - k - |rest|..]
    ensures rest == xs[|xs| - |rest|..]
  {
  }

  /** What one sub-command does to the settings. */
  function ApplyGo(s: Search, c: GoCommand): (r: Search)
    ensures r.game == s.game
    ensures c.GoBTime? ==>
      r.btime == c.ms && r.timeControl == WOrBTime && r.depth == TIMED_DEPTH
      && r.wtime == s.wtime && r.movetime == s.movetime
    ensures c.GoWTime? ==>
      r.wtime == c.ms && r.timeControl == WOrBTime && r.depth == TIMED_DEPTH
      && r.btime == s.btime && r.movetime == s.movetime
    ensures c.GoDepth? ==>
      r.depth == c.plies % U32_MODULUS && r.timeControl == NoControl
      && r.wtime == s.wtime && r.btime == s.btime && r.movetime == s.movetime
    ensures c.GoMoveTime? ==>
      r.movetime == c.ms && r.timeControl == MoveTime && r.depth == TIMED_DEPTH
      && r.wtime == s.wtime && r.btime == s.btime
    ensures c.GoInfinite? ==> r == s
  {
    match c
    case GoBTime(ms) => s.(depth := TIMED_DEPTH, timeControl := WOrBTime, btime := ms)
    case GoWTime(ms) => s.(depth := TIMED_DEPTH, timeControl := WOrBTime, wtime := ms)
    case GoDepth(plies) => s.(depth := plies % U32_MODULUS, timeControl := NoControl)
    case GoMoveTime(ms) => s.(movetime := ms, timeControl := MoveTime, depth := TIMED_DEPTH)
    case GoInfinite => s
  }

  /** The sub-commands applied left to right. */
  function ApplyAll(s: Search, cs: seq<GoCommand>): (r: Search)
    ensures r.game == s.game
    decreases |cs|
  {
    if |cs| == 0 then s else ApplyAll(ApplyGo(s, cs[0]), cs[1..])
  }

  /** The effect of `go` followed by `toks`: the sub-commands take effect, then
      the search starts with the resulting settings, unless an unknown
      sub-command stopped the parse, in which case it is reported instead. */
  function RunGo(st: Session, toks: seq<string>): (r: Session)
    requires GoOperandsOk(toks)
    ensures r.exited == st.exited && r.search.game == st.search.game
    ensures || (r.searches == st.searches + [r.search] && r.output == st.output)
            || (r.searches == st.searches && |r.output| == |st.output| + 1
                && r.output[..|st.output|] == st.output)
  {
    var p := ParseGo(toks);
    var s := ApplyAll(st.search, p.commands);
    if p.unknown.None? then st.(search := s, searches := st.searches + [s])
    else st.(search := s, output := st.output + ["Unknown go command: " + p.unknown.value])
  }

  /** The tokens that spell out one sub-command. */
  function RenderCommand(c: GoCommand): seq<string> {
    match c
    case GoBTime(ms) => ["btime", Show(ms)]
    case GoWTime(ms) => ["wtime", Show(ms)]
    case GoDepth(plies) => ["depth", Show(plies)]
    case GoMoveTime(ms) => ["movetime", Show(ms)]
    case GoInfinite => ["infinite"]
  }

  /** The tokens that spell out a list of sub-commands. */
  function RenderGo(cs: seq<GoCommand>): seq<string>
    decreases |cs|
  {
    if |cs| == 0 then [] else RenderCommand(cs[0]) + RenderGo(cs[1..])
  }

  // ---------------------------------------------------------------------
  // Properties of `go`

  /** Reading one spelled-out sub-command gives it back. */
  lemma ParseRenderCommand(c: GoCommand, later: seq<string>)
    requires GoOperandsOk(later)
    ensures GoOperandsOk(RenderCommand(c) + later)
    ensures ParseGo(RenderCommand(c) + later) == Prepend(c, ParseGo(later))
  {
    var toks := RenderCommand(c) + later;
    if c.GoInfinite? {
      assert toks[0] == "infinite" && toks[1..] == later;
    } else {
      assert toks[0] == RenderCommand(c)[0] && toks[1] == RenderCommand(c)[1] && toks[2..] == later;
      match c
      case GoBTime(ms) => ParseShowU32(ms);
      case GoWTime(ms) => ParseShowU32(ms);
      case GoDepth(plies) => ParseShowU64(plies);
      case GoMoveTime(ms) => ParseShowU32(ms);
    }
  }

  lemma ConsAppend<T>(x: seq<T>, y: seq<T>)
    requires |x| > 0
    ensures [x[0]] + (x[1..] + y) == x + y
  {
    assert x == [x[0]] + x[1..];
  }

  lemma RenderGoCons(cs: seq<GoCommand>, tail: seq<string>)
    requires |cs| > 0
    ensures RenderGo(cs) + tail == RenderCommand(cs[0]) + (RenderGo(cs[1..]) + tail)
  {
    var head, later := RenderCommand(cs[0]), RenderGo(cs[1..]);
    assert RenderGo(cs) == head + later;
    AppendAssociative(head, later, tail);
  }

  /** Reading the spelled-out sub-commands gives them back, whatever follows. */
  lemma {:induction false} ParseRenderGo(cs: seq<GoCommand>, tail: seq<string>)
    requires GoOperandsOk(tail)
    ensures GoOperandsOk(RenderGo(cs) + tail)
    ensures ParseGo(RenderGo(cs) + tail) == ParseGo(tail).(commands := cs + ParseGo(tail).commands)
    decreases |cs|
  {
    if |cs| == 0 {
      assert RenderGo(cs) + tail == tail;
    } else {
      var later := RenderGo(cs[1..]) + tail;
      var p := ParseGo(tail);
      ParseRenderGo(cs[1..], tail);
      assert ParseGo(later) == p.(commands := cs[1..] + p.commands);
      RenderGoCons(cs, tail);
      ParseRenderCommand(cs[0], later);
      ConsAppend(cs, p.commands);
    }
  }

  /** A `go` line made only of recognised sub-commands starts exactly one
      search, with the settings they produce, and prints nothing. */
  lemma KnownGoSearchesOnce(st: Session, cs: seq<GoCommand>)
    ensures GoOperandsOk(RenderGo(cs))
    ensures RunGo(st, RenderGo(cs)).searches == st.searches + [ApplyAll(st.search, cs)]
    ensures RunGo(st, RenderGo(cs)).output == st.output
    ensures RunGo(st, RenderGo(cs)).search == ApplyAll(st.search, cs)
  {
    ParseRenderGo(cs, []);
    assert RenderGo(cs) + [] == RenderGo(cs);
    assert cs + [] == cs;
  }

  /** An unknown sub-command stops the parse: no search starts, one line is
      printed, and the updates made before it are kept. */
  lemma UnknownGoStops(st: Session, cs: seq<GoCommand>, u: string, rest: seq<string>)
    requires !IsGoKeyword(u)
    ensures GoOperandsOk(RenderGo(cs) + [u] + rest)
    ensures RunGo(st, RenderGo(cs) + [u] + rest)
         == st.(search := ApplyAll(st.search, cs), output := st.output + ["Unknown go command: " + u])
  {
    assert RenderGo(cs) + [u] + rest == RenderGo(cs) + ([u] + rest);
    ParseRenderGo(cs, [u] + rest);
    assert ([u] + rest)[1..] == rest;
    assert cs + [] == cs;
  }

  /** `go` starts a search exactly when no unknown sub-command stops it, and
      then prints nothing; otherwise it prints exactly one line. */
  lemma GoSearchesIffKnown(st: Session, toks: seq<string>)
    requires GoOperandsOk(toks)
    ensures |RunGo(st, toks).searches| == |st.searches| + 1 <==> ParseGo(toks).unknown.None?
    ensures |RunGo(st, toks).searches| == |st.searches| || |RunGo(st, toks).searches| == |st.searches| + 1
    ensures |RunGo(st, toks).output| == |st.output| + (if ParseGo(toks).unknown.None? then 0 else 1)
    ensures RunGo(st, toks).search.game == st.search.game
    ensures RunGo(st, toks).exited == st.exited
  {
  }

  /** Applying two lists in turn is applying their concatenation. */
  lemma {:induction false} ApplyAllAppend(s: Search, a: seq<GoCommand>, b: seq<GoCommand>)
    ensures ApplyAll(s, a + b) == ApplyAll(ApplyAll(s, a), b)
    decreases |a|
  {
    if |a| == 0 {
      assert a + b == b;
    } else {
      assert (a + b)[0] == a[0];
      assert (a + b)[1..] == a[1..] + b;
      ApplyAllAppend(ApplyGo(s, a[0]), a[1..], b);
    }
  }

  /** `infinite` changes nothing: dropping it gives the same settings. */
  lemma InfiniteIsNoOp(s: Search, a: seq<GoCommand>, b: seq<GoCommand>)
    ensures ApplyAll(s, a + [GoInfinite] + b) == ApplyAll(s, a + b)
  {
    ApplyAllAppend(s, a + [GoInfinite], b);
    ApplyAllAppend(s, a, [GoInfinite]);
    ApplyAllAppend(s, a, b);
    assert [GoInfinite][1..] == [];
  }

  /** Only `infinite` follows. */
  predicate OnlyInfinite(cs: seq<GoCommand>) {
    forall i :: 0 <= i < |cs| ==> cs[i].GoInfinite?
  }

  lemma {:induction false} OnlyInfiniteKeeps(s: Search, cs: seq<GoCommand>)
    requires OnlyInfinite(cs)
    ensures ApplyAll(s, cs) == s
    decreases |cs|
  {
    if |cs| > 0 {
      OnlyInfiniteKeeps(ApplyGo(s, cs[0]), cs[1..]);
    }
  }

  /** The time control and the depth are those of the last of `depth`,
      `movetime`, `wtime` and `btime`. */
  lemma LastTimedCommandWins(s: Search, a: seq<GoCommand>, c: GoCommand, b: seq<GoCommand>)
    requires !c.GoInfinite? && OnlyInfinite(b)
    ensures ApplyAll(s, a + [c] + b).timeControl
         == (if c.GoDepth? then NoControl else if c.GoMoveTime? then MoveTime else WOrBTime)
    ensures ApplyAll(s, a + [c] + b).depth
         == (if c.GoDepth? then c.plies % U32_MODULUS else TIMED_DEPTH)
  {
    ApplyAllAppend(s, a + [c], b);
    ApplyAllAppend(s, a, [c]);
    OnlyInfiniteKeeps(ApplyAll(s, a + [c]), b);
    assert [c][1..] == [];
  }

  predicate NoWTime(cs: seq<GoCommand>) {
    forall i :: 0 <= i < |cs| ==> !cs[i].GoWTime?
  }

  predicate NoBTime(cs: seq<GoCommand>) {
    forall i :: 0 <= i < |cs| ==> !cs[i].GoBTime?
  }

  predicate NoMoveTime(cs: seq<GoCommand>) {
    forall i :: 0 <= i < |cs| ==> !cs[i].GoMoveTime?
  }

  /** Commands other than `wtime`, `btime` and `movetime` leave the field
      each of them writes. */
  lemma {:induction false} ClocksKept(s: Search, cs: seq<GoCommand>)
    ensures NoWTime(cs) ==> ApplyAll(s, cs).wtime == s.wtime
    ensures NoBTime(cs) ==> ApplyAll(s, cs).btime == s.btime
    ensures NoMoveTime(cs) ==> ApplyAll(s, cs).movetime == s.movetime
    decreases |cs|
  {
    if |cs| > 0 {
      ClocksKept(ApplyGo(s, cs[0]), cs[1..]);
      assert NoWTime(cs) ==> NoWTime(cs[1..]);
      assert NoBTime(cs) ==> NoBTime(cs[1..]);
      assert NoMoveTime(cs) ==> NoMoveTime(cs[1..]);
    }
  }

  /** Each clock field holds the operand of its last writer. */
  lemma LastClockWins(s: Search, a: seq<GoCommand>, c: GoCommand, b: seq<GoCommand>)
    requires c.GoWTime? ==> NoWTime(b)
    requires c.GoBTime? ==> NoBTime(b)
    requires c.GoMoveTime? ==> NoMoveTime(b)
    ensures c.GoWTime? ==> ApplyAll(s, a + [c] + b).wtime == c.ms
    ensures c.GoBTime? ==> ApplyAll(s, a + [c] + b).btime == c.ms
    ensures c.GoMoveTime? ==> ApplyAll(s, a + [c] + b).movetime == c.ms
  {
    ApplyAllAppend(s, a + [c], b);
    ApplyAllAppend(s, a, [c]);
    ClocksKept(ApplyAll(s, a + [c]), b);
    assert [c][1..] == [];
  }

  // ---------------------------------------------------------------------
  // `position` and `setoption`

  /** The move list after a position is acceptable: it is absent, or it does
      not start with `moves` (and is ignored), or every move parses as a UCI
      move that is legal in `game`. Each move is played on a clone of the
      stored game, so all are checked against the same position. */
  predicate MovesOk(rules: Rules, game: Game, toks: seq<string>)
    ensures |toks| <= 1 || toks[0] != "moves" ==> MovesOk(rules, game, toks)
    ensures MovesOk(rules, game, toks) && |toks| > 1 && toks[0] == "moves" ==>
      rules.moveOk(game, toks[|toks| - 1])
  {
    |toks| == 0 || toks[0] != "moves" || forall i :: 1 <= i < |toks| ==> rules.moveOk(game, toks[i])
  }

  /** The tokens after `position` are present where the handlers take them. */
  predicate PositionShapeOk(toks: seq<string>) {
    |toks| > 0 && (toks[0] == "fen" ==> |toks| > 1)
  }

  /** ... and the rules library accepts the FEN and the moves. */
  predicate PositionOk(rules: Rules, toks: seq<string>)
    ensures PositionOk(rules, toks) ==> PositionShapeOk(toks)
    ensures PositionOk(rules, toks) && toks[0] == "fen" ==> rules.fenOk(toks[1])
    ensures |toks| > 0 && toks[0] != "startpos" && toks[0] != "fen" ==> PositionOk(rules, toks)
  {
    PositionShapeOk(toks)
    && (toks[0] == "startpos" ==> MovesOk(rules, StartPosition, toks[1..]))
    && (toks[0] == "fen" ==> rules.fenOk(toks[1]) && MovesOk(rules, FromFen(toks[1]), toks[2..]))
  }

  /** The tokens a move-list handler leaves in the queue: nothing once it has
      read a `moves` list, everything after the first token otherwise. */
  function MovesRest(toks: seq<string>): seq<string> {
    if |toks| > 0 && toks[0] != "moves" then toks[1..] else []
  }

  function PositionRest(toks: seq<string>): seq<string>
    requires PositionShapeOk(toks)
  {
    if toks[0] == "startpos" then MovesRest(toks[1..])
    else if toks[0] == "fen" then MovesRest(toks[2..])
    else toks[1..]
  }

  /** The effect of `position` followed by `toks`. */
  function Position(st: Session, toks: seq<string>): (r: Session)
    requires PositionShapeOk(toks)
    ensures r.searches == st.searches && r.exited == st.exited
    ensures toks[0] == "startpos" ==> r == st.(search := st.search.(game := StartPosition))
    ensures toks[0] == "fen" ==> r == st.(search := st.search.(game := FromFen(toks[1])))
    ensures toks[0] != "startpos" && toks[0] != "fen" ==>
      r.search == st.search && r.output == st.output + ["Unknown position command: " + toks[0]]
  {
    if toks[0] == "startpos" then st.(search := st.search.(game := StartPosition))
    else if toks[0] == "fen" then st.(search := st.search.(game := FromFen(toks[1])))
    else st.(output := st.output + ["Unknown position command: " + toks[0]])
  }

  /** The effect of `setoption` followed by `toks`, read as
      `name <name> value <value>` without checking the two keywords. */
  function SetOption(st: Session, toks: seq<string>): (r: Session)
    requires |toks| >= 4
    ensures r.search == st.search && r.searches == st.searches && r.exited == st.exited
    ensures |toks[1]| == 0 || |toks[3]| == 0 ==> r == st
    ensures |toks[1]| > 0 && |toks[3]| > 0 ==>
      |r.output| == |st.output| + 1 && r.output[..|st.output|] == st.output
    ensures |toks[1]| > 0 && |toks[3]| > 0 && toks[1] == "MoveOverhead" ==>
      r.output[|st.output|] == "info string set move overhead"
    ensures |toks[1]| > 0 && |toks[3]| > 0 && toks[1] != "MoveOverhead" ==>
      r.output[|st.output|] == "info string unknown option: " + toks[1]
  {
    var name := toks[1];
    var value := toks[3];
    if |name| == 0 || |value| == 0 then st
    else if name == "MoveOverhead" then st.(output := st.output + ["info string set move overhead"])
    else st.(output := st.output + ["info string unknown option: " + name])
  }

  // ---------------------------------------------------------------------
  // Whole commands

  /** The tokens of a command line are present and parse where the handlers
      take them; `setoption` takes four operands. */
  predicate CommandShapeOk(toks: seq<string>) {
    |toks| > 0
    && (toks[0] == "setoption" ==> |toks| >= 5)
    && (toks[0] == "position" ==> PositionShapeOk(toks[1..]))
    && (toks[0] == "go" ==> GoOperandsOk(toks[1..]))
  }

  predicate CommandOk(rules: Rules, toks: seq<string>)
    ensures CommandOk(rules, toks) ==> |toks| > 0
    ensures |toks| > 0 && !IsCommandKeyword(toks[0]) ==> CommandOk(rules, toks)
    ensures |toks| > 0 && toks[0] in ["uci", "isready", "quit", "ucinewgame"] ==> CommandOk(rules, toks)
  {
    CommandShapeOk(toks) && (toks[0] == "position" ==> PositionOk(rules, toks[1..]))
  }

  predicate IsCommandKeyword(t: string) {
    t == "uci" || t == "isready" || t == "quit" || t == "setoption" || t == "ucinewgame"
    || t == "position" || t == "go"
  }

  /** The effect of one command, dispatched on its first token. */
  function Respond(st: Session, toks: seq<string>): (r: Session)
    requires CommandShapeOk(toks)
    ensures r.exited == (st.exited || toks[0] == "quit")
    ensures |st.output| <= |r.output| && r.output[..|st.output|] == st.output
    ensures toks[0] != "position" ==> r.search.game == st.search.game
  {
    var first := toks[0];
    if first == "uci" then st.(output := st.output + ["id name CastledEngine", "id author CastledChess"])
    else if first == "isready" then st.(output := st.output + ["readyok"])
    else if first == "quit" then st.(exited := true)
    else if first == "setoption" then SetOption(st, toks[1..])
    else if first == "ucinewgame" then st
    else if first == "position" then Position(st, toks[1..])
    else if first == "go" then RunGo(st, toks[1..])
    else st.(output := st.output + ["Unknown command: " + first])
  }

  // ---------------------------------------------------------------------
  // Properties of whole commands

  /** An unknown first token is reported and nothing else changes. */
  lemma UnknownCommandOnlyReports(st: Session, toks: seq<string>)
    requires |toks| > 0 && !IsCommandKeyword(toks[0])
    ensures CommandShapeOk(toks)
    ensures Respond(st, toks) == st.(output := st.output + ["Unknown command: " + toks[0]])
  {
  }

  /** Only `go` starts searches, and only `position` and `go` change the
      settings. */
  lemma OnlyGoSearches(st: Session, toks: seq<string>)
    requires CommandShapeOk(toks)
    ensures toks[0] != "go" ==> Respond(st, toks).searches == st.searches
    ensures toks[0] != "go" && toks[0] != "position" ==> Respond(st, toks).search == st.search
    ensures |Respond(st, toks).searches| <= |st.searches| + 1
  {
    if toks[0] == "go" {
      GoSearchesIffKnown(st, toks[1..]);
    }
  }

  /** `setoption` never touches the settings; on a tokenised line, where no
      token is empty, it prints exactly one line. */
  lemma SetOptionReportsOnce(st: Session, line: string)
    requires var toks := SplitWhitespace(line); |toks| >= 5 && toks[0] == "setoption"
    ensures Respond(st, SplitWhitespace(line)).search == st.search
    ensures Respond(st, SplitWhitespace(line)).searches == st.searches
    ensures |Respond(st, SplitWhitespace(line)).output| == |st.output| + 1
  {
    var toks := SplitWhitespace(line);
    assert IsToken(toks[2]) && IsToken(toks[4]);
  }

  /** `position startpos` always stores the initial position, whatever the
      moves after it. */
  lemma StartposSetsInitialPosition(st: Session, rest: seq<string>)
    ensures CommandShapeOk(["position", "startpos"] + rest)
    ensures Respond(st, ["position", "startpos"] + rest) == st.(search := st.search.(game := StartPosition))
  {
    var toks := ["position", "startpos"] + rest;
    assert toks[1..] == ["startpos"] + rest;
  }

  /** A whole `go` line, as typed, starts exactly one search with the
      sub-commands' settings. */
  lemma GoLineSearchesOnce(st: Session, cs: seq<GoCommand>)
    ensures CommandShapeOk(SplitWhitespace(JoinSpaces(["go"] + RenderGo(cs))))
    ensures Respond(st, SplitWhitespace(JoinSpaces(["go"] + RenderGo(cs))))
         == st.(search := ApplyAll(st.search, cs), searches := st.searches + [ApplyAll(st.search, cs)])
  {
    var toks := ["go"] + RenderGo(cs);
    GoTokens(cs);
    SplitJoin(toks);
    KnownGoSearchesOnce(st, cs);
    RespondGo(st, toks);
  }

  lemma GoTokens(cs: seq<GoCommand>)
    ensures forall i :: 0 <= i < |["go"] + RenderGo(cs)| ==> IsToken((["go"] + RenderGo(cs))[i])
  {
    RenderedTokens(cs);
    assert IsToken("go");
  }

  /** A `go` command is handled by `RunGo` alone. */
  lemma RespondGo(st: Session, toks: seq<string>)
    requires |toks| > 0 && toks[0] == "go" && GoOperandsOk(toks[1..])
    ensures CommandShapeOk(toks) && Respond(st, toks) == RunGo(st, toks[1..])
  {
  }

  /** The spelled-out sub-commands are tokens. */
  lemma {:induction false} RenderedTokens(cs: seq<GoCommand>)
    ensures forall i :: 0 <= i < |RenderGo(cs)| ==> IsToken(RenderGo(cs)[i])
    decreases |cs|
  {
    if |cs| > 0 {
      RenderedTokens(cs[1..]);
      forall i | 0 <= i < |RenderGo(cs)|
        ensures IsToken(RenderGo(cs)[i])
      {
        var r := RenderGo(cs);
        var w := |r| - |RenderGo(cs[1..])|;
        if i >= w {
          assert r[i] == RenderGo(cs[1..])[i - w];
        } else {
          DigitsAreTokens(cs[0]);
        }
      }
    }
  }

  /** A keyword and a decimal operand contain no whitespace. */
  lemma DigitsAreTokens(c: GoCommand)
    ensures match c
      case GoBTime(ms) => IsToken(Show(ms)) && IsToken("btime")
      case GoWTime(ms) => IsToken(Show(ms)) && IsToken("wtime")
      case GoDepth(plies) => IsToken(Show(plies)) && IsToken("depth")
      case GoMoveTime(ms) => IsToken(Show(ms)) && IsToken("movetime")
      case GoInfinite => IsToken("infinite")
  {
  }

  // ---------------------------------------------------------------------
  // The token queue and the dispatcher

  /** The `Queue<&str>` the handlers share and remove tokens from. */
  class TokenQueue {
    var items: seq<string>

    constructor ()
      ensures items == []
    {
      items := [];
    }

    method Add(t: string)
      modifies this
      ensures items == old(items) + [t]
    {
      items := items + [t];
    }

    /** `remove`: the oldest token, or an error on an empty queue. */
    method Remove() returns (r: Option<string>)
      modifies this
      ensures old(items) == [] ==> r == None && items == []
      ensures old(items) != [] ==> r == Some(old(items)[0]) && items == old(items)[1..]
    {
      if items == [] {
        r := None;
      } else {
        r := Some(items[0]);
        items := items[1..];
      }
    }
  }

  /** `Uci`: the dispatcher with the search settings it configures. */
  class UciController {
    var search: Search
    var output: seq<string>
    var searches: seq<Search>
    var exited: bool
    /** The rules library's answers, used only to decide which inputs panic. */
    const rules: Rules

    function State(): Session
      reads this
    {
      Session(search, output, searches, exited)
    }

    /** A dispatcher over the given initial settings (`Search::default` is
        not part of this model). */
    constructor (rules: Rules, initial: Search)
      ensures State() == Session(initial, [], [], false) && this.rules == rules
    {
      this.rules := rules;
      search := initial;
      output := [];
      searches := [];
      exited := false;
    }

    /** `parse_command`: tokenise the line into a fresh queue and dispatch. */
    method ParseCommand(line: string)
      requires CommandOk(rules, SplitWhitespace(line))
      modifies this
      ensures State() == Respond(old(State()), SplitWhitespace(line))
    {
      var toks := SplitWhitespace(line);
      var q := new TokenQueue();
      for i := 0 to |toks|
        invariant q.items == toks[..i]
        invariant fresh(q)
        invariant State() == old(State())
      {
        q.Add(toks[i]);
      }
      assert toks[..|toks|] == toks;
      ParseTokens(q);
    }

    /** `parse_tokens`: dispatch on the first token. */
    method ParseTokens(q: TokenQueue)
      requires CommandOk(rules, q.items)
      modifies this, q
      ensures State() == Respond(old(State()), old(q.items))
    {
      var first := q.Remove();
      var t := first.value;
      if t == "uci" {
        HandleUci();
      } else if t == "isready" {
        HandleIsready();
      } else if t == "quit" {
        HandleQuit();
      } else if t == "setoption" {
        HandleSetoption(q);
      } else if t == "ucinewgame" {
        HandleUcinewgame();
      } else if t == "position" {
        HandlePosition(q);
      } else if t == "go" {
        HandleGo(q);
      } else {
        output := output + ["Unknown command: " + t];
      }
    }

    /** `handle_go`: read one sub-command; at the end of the line, start the
        search. */
    method HandleGo(q: TokenQueue)
      requires GoOperandsOk(q.items)
      modifies this, q
      ensures State() == RunGo(old(State()), old(q.items))
      ensures q.items == ParseGo(old(q.items)).rest
      decreases |q.items|, 1
    {
      ghost var toks := q.items;
      var token := q.Remove();
      assert token.Some? ==> toks == [token.value] + q.items;
      if token.None? {
        searches := searches + [search];
      } else {
        var t := token.value;
        if t == "btime" {
          HandleBTime(q);
        } else if t == "wtime" {
          HandleWTime(q);
        } else if t == "depth" {
          HandleGoDepth(q);
        } else if t == "movetime" {
          HandleGoMovetime(q);
        } else if t == "infinite" {
          HandleGoInfinite(q);
        } else {
          output := output + ["Unknown go command: " + t];
        }
      }
    }

    /** `handle_btime`. */
    method HandleBTime(q: TokenQueue)
      requires GoOperandsOk(["btime"] + q.items)
      modifies this, q
      ensures State() == RunGo(old(State()), ["btime"] + old(q.items))
      ensures q.items == ParseGo(["btime"] + old(q.items)).rest
      decreases |q.items|, 2
    {
      ghost var toks := ["btime"] + q.items;
      assert toks[1..] == q.items;
      var token := q.Remove();
      var time := ParseU32(token.value).value;
      assert toks[2..] == q.items;
      search := search.(depth := TIMED_DEPTH, timeControl := WOrBTime, btime := time);
      HandleGo(q);
    }

    /** `handle_wtime`. */
    method HandleWTime(q: TokenQueue)
      requires GoOperandsOk(["wtime"] + q.items)
      modifies this, q
      ensures State() == RunGo(old(State()), ["wtime"] + old(q.items))
      ensures q.items == ParseGo(["wtime"] + old(q.items)).rest
      decreases |q.items|, 2
    {
      ghost var toks := ["wtime"] + q.items;
      assert toks[1..] == q.items;
      var token := q.Remove();
      var time := ParseU32(token.value).value;
      assert toks[2..] == q.items;
      search := search.(depth := TIMED_DEPTH, timeControl := WOrBTime, wtime := time);
      HandleGo(q);
    }

    /** `handle_go_depth`: the u64 operand is truncated to 32 bits. */
    method HandleGoDepth(q: TokenQueue)
      requires GoOperandsOk(["depth"] + q.items)
      modifies this, q
      ensures State() == RunGo(old(State()), ["depth"] + old(q.items))
      ensures q.items == ParseGo(["depth"] + old(q.items)).rest
      decreases |q.items|, 2
    {
      ghost var toks := ["depth"] + q.items;
      assert toks[1..] == q.items;
      var token := q.Remove();
      var depth := ParseU64(token.value).value;
      assert toks[2..] == q.items;
      search := search.(depth := depth % U32_MODULUS, timeControl := NoControl);
      HandleGo(q);
    }

    /** `handle_go_movetime`. */
    method HandleGoMovetime(q: TokenQueue)
      requires GoOperandsOk(["movetime"] + q.items)
      modifies this, q
      ensures State() == RunGo(old(State()), ["movetime"] + old(q.items))
      ensures q.items == ParseGo(["movetime"] + old(q.items)).rest
      decreases |q.items|, 2
    {
      ghost var toks := ["movetime"] + q.items;
      assert toks[1..] == q.items;
      var token := q.Remove();
      var time := ParseU32(token.value).value;
      assert toks[2..] == q.items;
      search := search.(movetime := time, timeControl := MoveTime, depth := TIMED_DEPTH);
      HandleGo(q);
    }

    /** `handle_go_infinite`: changes nothing and reads on. */
    method HandleGoInfinite(q: TokenQueue)
      requires GoOperandsOk(["infinite"] + q.items)
      modifies this, q
      ensures State() == RunGo(old(State()), ["infinite"] + old(q.items))
      ensures q.items == ParseGo(["infinite"] + old(q.items)).rest
      decreases |q.items|, 2
    {
      ghost var toks := ["infinite"] + q.items;
      assert toks[1..] == q.items;
      HandleGo(q);
    }

    /** `handle_position`. */
    method HandlePosition(q: TokenQueue)
      requires PositionOk(rules, q.items)
      modifies this, q
      ensures State() == Position(old(State()), old(q.items))
      ensures q.items == PositionRest(old(q.items))
    {
      var token := q.Remove();
      var t := token.value;
      if t == "startpos" {
        HandlePositionStartpos(q);
      } else if t == "fen" {
        HandlePositionFen(q);
      } else {
        output := output + ["Unknown position command: " + t];
      }
    }

    /** `handle_position_startpos`: store the initial position, then check
        the move list against it. */
    method HandlePositionStartpos(q: TokenQueue)
      requires MovesOk(rules, StartPosition, q.items)
      modifies this`search, q
      ensures search == old(search).(game := StartPosition)
      ensures q.items == MovesRest(old(q.items))
    {
      search := search.(game := StartPosition);
      CheckMoves(q);
    }

    /** `handle_position_fen`: store the position the FEN token describes,
        then check the move list against it. */
    method HandlePositionFen(q: TokenQueue)
      requires |q.items| > 0 && rules.fenOk(q.items[0])
      requires MovesOk(rules, FromFen(q.items[0]), q.items[1..])
      modifies this`search, q
      ensures search == old(search).(game := FromFen(old(q.items)[0]))
      ensures q.items == MovesRest(old(q.items)[1..])
    {
      var token := q.Remove();
      search := search.(game := FromFen(token.value));
      CheckMoves(q);
    }

    /** The move-list tail both position handlers share: if the next token
        is `moves`, every later token is parsed and played on a clone of
        the stored game, which is then dropped. */
    method CheckMoves(q: TokenQueue)
      requires MovesOk(rules, search.game, q.items)
      modifies q
      ensures q.items == MovesRest(old(q.items))
    {
      var first := q.Remove();
      if first.Some? {
        if first.value != "moves" {
          return;
        }
        ghost var moves := old(q.items)[1..];
        ghost var i := 0;
        var m := q.Remove();
        if m.Some? {
          i := 1;
        }
        while m.Some?
          invariant 0 <= i <= |moves|
          invariant m.Some? ==> i >= 1 && m.value == moves[i - 1] && q.items == moves[i..]
          invariant m.None? ==> q.items == []
          decreases |q.items| + (if m.Some? then 1 else 0)
        {
          var game := search.game;
          assert m.value == old(q.items)[i];
          assert rules.moveOk(game, m.value);
          m := q.Remove();
          if m.Some? {
            i := i + 1;
          }
        }
      }
    }

    /** `handle_setoption`: four tokens are taken; the name decides the
        reply, and an empty name or value gives none. */
    method HandleSetoption(q: TokenQueue)
      requires |q.items| >= 4
      modifies this`output, q
      ensures State() == SetOption(old(State()), old(q.items))
      ensures q.items == old(q.items)[4..]
    {
      var _ := q.Remove();
      var name := q.Remove();
      var _ := q.Remove();
      var value := q.Remove();
      if |name.value| == 0 || |value.value| == 0 {
        return;
      }
      if name.value == "MoveOverhead" {
        output := output + ["info string set move overhead"];
      } else {
        output := output + ["info string unknown option: " + name.value];
      }
    }

    /** `handle_ucinewgame`: does nothing. */
    method HandleUcinewgame()
      ensures State() == old(State())
    {
    }

    /** `handle_isready`. */
    method HandleIsready()
      modifies this`output
      ensures State() == old(State()).(output := old(output) + ["readyok"])
    {
      output := output + ["readyok"];
    }

    /** `handle_quit`: the process exits. */
    method HandleQuit()
      modifies this`exited
      ensures State() == old(State()).(exited := true)
    {
      exited := true;
    }

    /** `handle_uci`: the engine's name and author. */
    method HandleUci()
      modifies this`output
      ensures State() == old(State()).(output := old(output) + ["id name CastledEngine", "id author CastledChess"])
    {
      output := output + ["id name CastledEngine", "id author CastledChess"];
    }
  }
}
