/** The value types of the rock-paper-scissors game: moves and the relation
    between them, the game's progress, its state, the commands a caller may
    issue and the events the game records. */
module Domain {

  /** Game and player identifiers are opaque tokens that are only ever
      compared for equality. */
  type GameId = nat
  type PlayerId = nat

  datatype Move = Rock | Paper | Scissors {

    /** True when `this` wins against `other`: exactly when `this` stands
        one step after `other` on the cycle rock, paper, scissors. */
    predicate Beats(other: Move): (b: bool)
      ensures b ==> this != other
      ensures b <==> (CyclePosition(this) - CyclePosition(other)) % 3 == 1
    {
      match (this, other)
      case (Rock, Scissors) => true
      case (Paper, Rock) => true
      case (Scissors, Paper) => true
      case _ => false
    }
  }

  /** Position of a move on the cycle rock, paper, scissors. */
  function CyclePosition(m: Move): int {
    match m
    case Rock => 0
    case Paper => 1
    case Scissors => 2
  }

  /** `Beats` is a strict tournament on the three moves: no move beats
      itself, and of two distinct moves exactly one beats the other. */
  lemma BeatsIsStrictTournament(a: Move, b: Move)
    ensures !a.Beats(a)
    ensures a != b ==> (a.Beats(b) <==> !b.Beats(a))
  {
  }

  /** Every move beats exactly one move and is beaten by exactly one. */
  lemma BeatsIsCyclic()
    ensures Rock.Beats(Scissors) && Paper.Beats(Rock) && Scissors.Beats(Paper)
    ensures forall a: Move, b: Move, c: Move :: a.Beats(b) && a.Beats(c) ==> b == c
    ensures forall a: Move, b: Move, c: Move :: b.Beats(a) && c.Beats(a) ==> b == c
  {
  }

  datatype PlayerMove = PlayerMove(playerId: PlayerId, move: Move)

  datatype GameResult = Won(winner: PlayerId) | Tied

  /** The game's four-state machine. */
  datatype GameProgress =
    | Uninitialized
    | NotStarted
    | FirstMoveMade(firstMove: PlayerMove)
    | GameEnded(result: GameResult)

  datatype GameState = GameState(gameId: GameId, progress: GameProgress)

  datatype Command =
    | CreateGame(gameId: GameId, createdBy: PlayerId)
    | Play(gameId: GameId, playerId: PlayerId, move: Move)

  /** The four kinds of domain event; every one carries the game's id. */
  datatype Event =
    | GameCreated(gameId: GameId, createdBy: PlayerId)
    | MoveMade(gameId: GameId, playerId: PlayerId, move: Move)
    | GameWon(gameId: GameId, winnerId: PlayerId)
    | GameTied(gameId: GameId)

  /** Position of a progress value along the only path the machine takes:
      Uninitialized, NotStarted, FirstMoveMade, GameEnded. */
  function Stage(p: GameProgress): (n: nat)
    ensures n <= 3
    ensures n == 0 <==> p.Uninitialized?
    ensures n == 1 <==> p.NotStarted?
    ensures n == 2 <==> p.FirstMoveMade?
    ensures n == 3 <==> p.GameEnded?
  {
    match p
    case Uninitialized => 0
    case NotStarted => 1
    case FirstMoveMade(_) => 2
    case GameEnded(_) => 3
  }
}
