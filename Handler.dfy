/** Deciding commands: from the current state and a command, the events the
    command produces. Nothing here fails; a command that does not apply
    produces no events. */
module Handler {
  import opened Domain

  /** A game can be created only while none exists. */
  function CreateGame(s: GameState, gameId: GameId, createdBy: PlayerId): (r: seq<Event>)
    ensures s.progress.Uninitialized? ==> r == [GameCreated(gameId, createdBy)]
    ensures !s.progress.Uninitialized? ==> r == []
  {
    match s.progress
    case Uninitialized => [GameCreated(gameId, createdBy)]
    case _ => []
  }

  /** The event that ends a game whose first move was `first` when the
      second player, `playerId`, plays `move`: a tie on equal moves,
      otherwise a win for whichever player's move beats the other's. */
  function ResultEvent(gameId: GameId, first: PlayerMove, playerId: PlayerId, move: Move): (e: Event)
    ensures e.GameTied? || e.GameWon?
    ensures e.gameId == gameId
    ensures e.GameTied? <==> first.move == move
    ensures first.move.Beats(move) ==> e == GameWon(gameId, first.playerId)
    ensures move.Beats(first.move) ==> e == GameWon(gameId, playerId)
  {
    if first.move == move then
      GameTied(gameId)
    else if first.move.Beats(move) then
      GameWon(gameId, first.playerId)
    else
      GameWon(gameId, playerId)
  }

  /** A move: the first one of a started game is recorded; the second one is
      recorded together with the game's result; a move before creation or
      after the end has no effect. Every event carries the state's id. */
  function Play(s: GameState, playerId: PlayerId, move: Move): (r: seq<Event>)
    ensures s.progress.NotStarted? ==> r == [MoveMade(s.gameId, playerId, move)]
    ensures s.progress.FirstMoveMade? ==>
      |r| == 2 && r[0] == MoveMade(s.gameId, playerId, move) &&
      (r[1] == GameTied(s.gameId) <==> s.progress.firstMove.move == move) &&
      (s.progress.firstMove.move.Beats(move) ==> r[1] == GameWon(s.gameId, s.progress.firstMove.playerId)) &&
      (move.Beats(s.progress.firstMove.move) ==> r[1] == GameWon(s.gameId, playerId))
    ensures s.progress.Uninitialized? || s.progress.GameEnded? ==> r == []
  {
    match s.progress
    case NotStarted =>
      [MoveMade(s.gameId, playerId, move)]
    case FirstMoveMade(first) =>
      [MoveMade(s.gameId, playerId, move), ResultEvent(s.gameId, first, playerId, move)]
    case _ =>
      []
  }

  /** The command handler. It never yields more than two events, yields none
      exactly when the command does not fit the game's progress, and stamps
      every event with the created id or, for a move, the state's id (the
      command's own game id is not consulted for a move). */
  function Handle(s: GameState, cmd: Command): (r: seq<Event>)
    ensures |r| <= 2
    ensures r == [] <==>
      (cmd.CreateGame? && !s.progress.Uninitialized?) ||
      (cmd.Play? && (s.progress.Uninitialized? || s.progress.GameEnded?))
    ensures forall i :: 0 <= i < |r| ==>
      r[i].gameId == (if cmd.CreateGame? then cmd.gameId else s.gameId)
  {
    match cmd
    case CreateGame(g, c) => CreateGame(s, g, c)
    case Play(_, p, m) => Play(s, p, m)
  }

  /** A new game's creation yields the single `GameCreated` event. */
  lemma CreateOnFreshState(g: GameId, c: PlayerId, placeholder: GameId)
    ensures Handle(GameState(placeholder, Uninitialized), Command.CreateGame(g, c)) == [GameCreated(g, c)]
  {
  }

  /** After paper answers rock, the second player wins. */
  lemma PaperAnswersRock(g: GameId, a: PlayerId, b: PlayerId)
    ensures Handle(GameState(g, FirstMoveMade(PlayerMove(a, Rock))), Command.Play(g, b, Paper))
      == [MoveMade(g, b, Paper), GameWon(g, b)]
  {
  }

  /** Equal second move: the game is tied. */
  lemma SameMoveTies(g: GameId, a: PlayerId, b: PlayerId, m: Move)
    ensures Handle(GameState(g, FirstMoveMade(PlayerMove(a, m))), Command.Play(g, b, m))
      == [MoveMade(g, b, m), GameTied(g)]
  {
  }
}
