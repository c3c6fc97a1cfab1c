/** The handler and the reconstructor as two halves of one protocol: the
    caller folds the history into a state, hands the state and a command to
    the handler, and appends the events it returns. This module states the
    transition each command is meant to cause and proves that replaying the
    handler's events causes exactly that transition. */
module Protocol {
  import opened Domain
  import opened Reconstructor
  import opened Handler

  /** Reference outcome of a game between two moves, stated independently of
      the handler: whoever's move beats the other's wins, otherwise a tie. */
  function Judge(first: PlayerMove, second: PlayerMove): (r: GameResult)
    ensures r.Tied? <==> first.move == second.move
    ensures r.Won? ==>
      (r.winner == first.playerId && first.move.Beats(second.move)) ||
      (r.winner == second.playerId && second.move.Beats(first.move))
  {
    if second.move.Beats(first.move) then Won(second.playerId)
    else if first.move.Beats(second.move) then Won(first.playerId)
    else Tied
  }

  /** The event that records a result. */
  function ResultToEvent(g: GameId, r: GameResult): Event {
    match r
    case Won(w) => GameWon(g, w)
    case Tied => GameTied(g)
  }

  /** The handler's closing event is the reference judgement of the two
      moves. */
  lemma ResultEventIsJudged(g: GameId, first: PlayerMove, p: PlayerId, m: Move)
    ensures ResultEvent(g, first, p, m) == ResultToEvent(g, Judge(first, PlayerMove(p, m)))
  {
  }

  /** The state change a command is meant to cause: creation of a game that
      does not yet exist, a first move, a second move that ends the game, or
      nothing at all when the command does not fit the progress. */
  function Intended(s: GameState, cmd: Command): (t: GameState)
    ensures t == s || Stage(t.progress) == Stage(s.progress) + 1
    ensures t != s ==> t.gameId == (if cmd.CreateGame? then cmd.gameId else s.gameId)
  {
    match cmd
    case CreateGame(g, _) =>
      if s.progress.Uninitialized? then GameState(g, NotStarted) else s
    case Play(_, p, m) =>
      match s.progress
      case NotStarted => GameState(s.gameId, FirstMoveMade(PlayerMove(p, m)))
      case FirstMoveMade(first) => GameState(s.gameId, GameEnded(Judge(first, PlayerMove(p, m))))
      case _ => s
  }

  /** The handler returns no events exactly when the command is meant to
      change nothing. */
  lemma NoEventsIffNoChange(s: GameState, cmd: Command)
    ensures Handle(s, cmd) == [] <==> Intended(s, cmd) == s
  {
  }

  /** Round trip: replaying the handler's events from the state it was given
      makes exactly the intended transition. */
  lemma HandleThenReplay(s: GameState, cmd: Command)
    ensures FoldEvents(s, Handle(s, cmd)) == Intended(s, cmd)
  {
    var es := Handle(s, cmd);
    if cmd.Play? && s.progress.FirstMoveMade? {
      var first := s.progress.firstMove;
      ResultEventIsJudged(s.gameId, first, cmd.playerId, cmd.move);
      var mid := Apply(s, es[0]);
      assert mid == s;
      assert FoldEvents(s, es) == FoldEvents(s, es[1..]);
      assert FoldEvents(s, es[1..]) == FoldEvents(Apply(s, es[1]), []);
    } else if es != [] {
      assert FoldEvents(s, es) == FoldEvents(Apply(s, es[0]), []);
    }
  }

  /** The round trip on histories: recreating from the history extended by
      the handler's answer to its own state gives the intended state. */
  lemma ReplayAfterHandle(initialId: GameId, h: seq<Event>, cmd: Command)
    ensures
      var s := RecreateFrom(initialId, h);
      RecreateFrom(initialId, h + Handle(s, cmd)) == Intended(s, cmd)
  {
    var s := RecreateFrom(initialId, h);
    FoldAppend(GameState(initialId, Uninitialized), h, Handle(s, cmd));
    HandleThenReplay(s, cmd);
  }

  /** The history a caller builds by handling `cmds` one after another, each
      against the state recreated from the events so far, and appending the
      events returned. */
  function History(initialId: GameId, cmds: seq<Command>): seq<Event>
    decreases |cmds|
  {
    if cmds == [] then []
    else
      var h := History(initialId, cmds[..|cmds| - 1]);
      h + Handle(RecreateFrom(initialId, h), cmds[|cmds| - 1])
  }

  /** Shape of every history built through the handler: all its events carry
      the game's id, and its length and contents follow the progress it
      replays to: nothing before creation, the creation, then the first move,
      then the second move followed by the judged result. */
  predicate WellFormed(initialId: GameId, h: seq<Event>) {
    var s := RecreateFrom(initialId, h);
    && (forall i :: 0 <= i < |h| ==> h[i].gameId == s.gameId)
    && match s.progress
       case Uninitialized => h == []
       case NotStarted => |h| == 1 && h[0].GameCreated?
       case FirstMoveMade(pm) =>
         |h| == 2 && h[0].GameCreated? && h[1] == MoveMade(s.gameId, pm.playerId, pm.move)
       case GameEnded(r) =>
         && |h| == 4 && h[0].GameCreated? && h[1].MoveMade? && h[2].MoveMade?
         && r == Judge(PlayerMove(h[1].playerId, h[1].move), PlayerMove(h[2].playerId, h[2].move))
         && h[3] == ResultToEvent(s.gameId, r)
  }

  /** Handling one more command keeps a history well formed. */
  lemma HandlePreservesWellFormed(initialId: GameId, h: seq<Event>, cmd: Command)
    requires WellFormed(initialId, h)
    ensures WellFormed(initialId, h + Handle(RecreateFrom(initialId, h), cmd))
  {
    var s := RecreateFrom(initialId, h);
    var es := Handle(s, cmd);
    var h' := h + es;
    ReplayAfterHandle(initialId, h, cmd);
    if es == [] {
      assert h' == h;
    } else if cmd.CreateGame? {
      assert h == [];
      assert h' == [GameCreated(cmd.gameId, cmd.createdBy)];
    } else if s.progress.NotStarted? {
      assert h' == [h[0], MoveMade(s.gameId, cmd.playerId, cmd.move)];
    } else {
      var first := s.progress.firstMove;
      ResultEventIsJudged(s.gameId, first, cmd.playerId, cmd.move);
      assert h' == [h[0], h[1], es[0], es[1]];
    }
  }

  /** Every history a caller builds through the handler is well formed. */
  lemma {:induction false} HistoryIsWellFormed(initialId: GameId, cmds: seq<Command>)
    ensures WellFormed(initialId, History(initialId, cmds))
    decreases |cmds|
  {
    if cmds != [] {
      HistoryIsWellFormed(initialId, cmds[..|cmds| - 1]);
      HandlePreservesWellFormed(initialId, History(initialId, cmds[..|cmds| - 1]), cmds[|cmds| - 1]);
    }
  }

  /** A game accumulates at most four events, all carrying one id, and a
      replayed history ends in the state its length says. */
  lemma HistoryBounds(initialId: GameId, cmds: seq<Command>)
    ensures
      var h := History(initialId, cmds);
      var s := RecreateFrom(initialId, h);
      && |h| <= 4
      && (forall i :: 0 <= i < |h| ==> h[i].gameId == s.gameId)
      && (|h| == 4 <==> s.progress.GameEnded?)
      && |h| != 3
  {
    HistoryIsWellFormed(initialId, cmds);
  }

  /** A whole game played through the handler: creation, rock, then
      scissors from the second player, which the first player wins. */
  lemma RockBeatsScissorsThroughHandler(initialId: GameId, g: GameId, a: PlayerId, b: PlayerId)
    ensures History(initialId, [Command.CreateGame(g, a), Command.Play(g, a, Rock), Command.Play(g, b, Scissors)])
      == [GameCreated(g, a), MoveMade(g, a, Rock), MoveMade(g, b, Scissors), GameWon(g, a)]
    ensures RecreateFrom(initialId,
      History(initialId, [Command.CreateGame(g, a), Command.Play(g, a, Rock), Command.Play(g, b, Scissors)]))
      == GameState(g, GameEnded(Won(a)))
  {
    var c := [Command.CreateGame(g, a), Command.Play(g, a, Rock), Command.Play(g, b, Scissors)];
    var h1 := [GameCreated(g, a)];
    var h2 := h1 + [MoveMade(g, a, Rock)];
    assert c[..0] == [] && c[..1] == [c[0]] && c[..2] == [c[0], c[1]];
    assert History(initialId, c[..1]) == h1;
    RecreateSnoc(initialId, [], GameCreated(g, a));
    assert RecreateFrom(initialId, h1) == GameState(g, NotStarted);
    assert History(initialId, c[..2]) == h2;
    RecreateSnoc(initialId, h1, MoveMade(g, a, Rock));
    assert RecreateFrom(initialId, h2) == GameState(g, FirstMoveMade(PlayerMove(a, Rock)));
    ReplayAfterHandle(initialId, h2, c[2]);
  }

  /** The first move of a freshly created game is recorded on its own. */
  lemma FirstMoveAfterCreate(initialId: GameId, g: GameId, a: PlayerId, m: Move)
    ensures Handle(RecreateFrom(initialId, [GameCreated(g, a)]), Command.Play(g, a, m))
      == [MoveMade(g, a, m)]
  {
  }
}
