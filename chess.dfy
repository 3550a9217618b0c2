/** The parts of the chess rules library that the engine's core only passes
    around: the side to move, a game position, and the library's FEN and
    move checks, which are given to the model from outside. */
module Chess {

  datatype Color = White | Black

  /** A position as the rules library produces it, identified by how it was
      made: the standard initial position, or the position parsed from a FEN
      text. The library's board contents are not modelled. */
  datatype Game = StartPosition | FromFen(fen: string)

  /** The rules library's answers to the questions the protocol layer asks:
      whether a FEN token parses into a legal position, and whether a move
      token parses as a UCI move that is legal in a given game. */
  datatype Rules = Rules(fenOk: string -> bool, moveOk: (Game, string) -> bool)

  /** The opposite colour. */
  function Opponent(c: Color): (o: Color)
    ensures o != c
  {
    if c == White then Black else White
  }
}
