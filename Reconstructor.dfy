/** Rebuilding a game's state by replaying its events, oldest first, from an
    uninitialized state. */
module Reconstructor {
  import opened Domain

  /** One replay step. A `GameCreated` (re)starts the game under the event's
      id from any progress; every other event advances the machine by one
      stage when it fits the current progress and is ignored otherwise. */
  function Apply(s: GameState, e: Event): (r: GameState)
    ensures e.GameCreated? ==> r == GameState(e.gameId, NotStarted)
    ensures !e.GameCreated? ==> r == s || Stage(r.progress) == Stage(s.progress) + 1
    ensures r != s ==> r.gameId == e.gameId
    ensures e.MoveMade? ==>
      (r != s <==> s.progress.NotStarted?) &&
      (r != s ==> r.progress == FirstMoveMade(PlayerMove(e.playerId, e.move)))
    ensures e.GameWon? ==>
      (r != s <==> s.progress.FirstMoveMade?) &&
      (r != s ==> r.progress == GameEnded(Won(e.winnerId)))
    ensures e.GameTied? ==>
      (r != s <==> s.progress.FirstMoveMade?) &&
      (r != s ==> r.progress == GameEnded(Tied))
  {
    match e
    case GameCreated(g, _) =>
      GameState(g, NotStarted)
    case MoveMade(g, p, m) =>
      if s.progress.NotStarted? then GameState(g, FirstMoveMade(PlayerMove(p, m))) else s
    case GameWon(g, w) =>
      if s.progress.FirstMoveMade? then GameState(g, GameEnded(Won(w))) else s
    case GameTied(g) =>
      if s.progress.FirstMoveMade? then GameState(g, GameEnded(Tied)) else s
  }

  /** Left fold of `Apply` over `events`, starting from `s`. Replaying
      nothing, or ending uninitialized, leaves `s` as it was; a history whose
      last event is a `GameCreated` ends in that game, not yet started. */
  function FoldEvents(s: GameState, events: seq<Event>): (r: GameState)
    ensures events == [] ==> r == s
    ensures r.progress.Uninitialized? ==> r == s
    ensures |events| > 0 && events[|events| - 1].GameCreated? ==>
      r == GameState(events[|events| - 1].gameId, NotStarted)
    decreases |events|
  {
    if events == [] then s else FoldEvents(Apply(s, events[0]), events[1..])
  }

  /** The state a history of events leaves a game in. The starting id, a
      fresh random identifier in the Swift program, is a parameter. Replaying
      nothing gives the uninitialized starting state, and a replay stays
      uninitialized, under the starting id, exactly when no game was created. */
  function RecreateFrom(initialId: GameId, events: seq<Event>): (r: GameState)
    ensures events == [] ==> r == GameState(initialId, Uninitialized)
    ensures r.progress.Uninitialized? <==>
      forall i :: 0 <= i < |events| ==> !events[i].GameCreated?
    ensures r.progress.Uninitialized? ==> r.gameId == initialId
  {
    UninitializedIffNeverCreated(GameState(initialId, Uninitialized), events);
    FoldEvents(GameState(initialId, Uninitialized), events)
  }

  /** Replaying a concatenation is replaying its second part from the state
      the first part leaves. */
  lemma {:induction false} FoldAppend(s: GameState, xs: seq<Event>, ys: seq<Event>)
    ensures FoldEvents(s, xs + ys) == FoldEvents(FoldEvents(s, xs), ys)
    decreases |xs|
  {
    if xs == [] {
      assert xs + ys == ys;
    } else {
      assert (xs + ys)[1..] == xs[1..] + ys;
      FoldAppend(Apply(s, xs[0]), xs[1..], ys);
    }
  }

  /** Appending one event to a history is one more `Apply` step. */
  lemma RecreateSnoc(initialId: GameId, h: seq<Event>, e: Event)
    ensures RecreateFrom(initialId, h + [e]) == Apply(RecreateFrom(initialId, h), e)
  {
    FoldAppend(GameState(initialId, Uninitialized), h, [e]);
  }

  /** A replayed game is uninitialized exactly when its history holds no
      `GameCreated`; it then still carries the starting id. */
  lemma {:induction false} UninitializedIffNeverCreated(s: GameState, events: seq<Event>)
    requires s.progress.Uninitialized?
    ensures FoldEvents(s, events).progress.Uninitialized? <==>
      forall i :: 0 <= i < |events| ==> !events[i].GameCreated?
    ensures FoldEvents(s, events).progress.Uninitialized? ==> FoldEvents(s, events) == s
    decreases |events|
  {
    if events != [] {
      var t := Apply(s, events[0]);
      if events[0].GameCreated? {
        NeverUninitializedAfterCreate(t, events[1..]);
      } else {
        assert t == s;
        UninitializedIffNeverCreated(s, events[1..]);
        assert forall i :: 1 <= i < |events| ==> events[i] == events[1..][i - 1];
      }
    }
  }

  /** Once created, a game never returns to `Uninitialized` on replay: a
      fold that ends uninitialized changed nothing (`FoldEvents`). */
  lemma NeverUninitializedAfterCreate(s: GameState, events: seq<Event>)
    requires !s.progress.Uninitialized?
    ensures !FoldEvents(s, events).progress.Uninitialized?
  {
  }

  /** An ended game is final: replaying events that create no game leaves it
      exactly as it is. */
  lemma {:induction false} EndedIsFinal(s: GameState, events: seq<Event>)
    requires s.progress.GameEnded?
    requires forall i :: 0 <= i < |events| ==> !events[i].GameCreated?
    ensures FoldEvents(s, events) == s
    decreases |events|
  {
    if events != [] {
      assert Apply(s, events[0]) == s;
      assert forall i :: 0 <= i < |events[1..]| ==> events[1..][i] == events[i + 1];
      EndedIsFinal(s, events[1..]);
    }
  }

  /** Replay never moves backwards except through a `GameCreated`. */
  lemma {:induction false} StageNeverRegresses(s: GameState, events: seq<Event>)
    requires forall i :: 0 <= i < |events| ==> !events[i].GameCreated?
    ensures Stage(FoldEvents(s, events).progress) >= Stage(s.progress)
    ensures Stage(FoldEvents(s, events).progress) <= Stage(s.progress) + |events|
    decreases |events|
  {
    if events != [] {
      assert forall i :: 0 <= i < |events[1..]| ==> events[1..][i] == events[i + 1];
      StageNeverRegresses(Apply(s, events[0]), events[1..]);
    }
  }

  /** A second `MoveMade` replayed without the result event that follows it
      is ignored: the state keeps the first mover's move. */
  lemma SecondMoveAloneIsIgnored(s: GameState, g: GameId, p: PlayerId, m: Move)
    requires s.progress.FirstMoveMade?
    ensures FoldEvents(s, [MoveMade(g, p, m)]) == s
  {
  }

  /** A finished game replays to its result: created, two moves and the
      first mover's win. */
  lemma ReplayFinishedGame(g: GameId, a: PlayerId, b: PlayerId, initialId: GameId)
    ensures RecreateFrom(initialId,
      [GameCreated(g, a), MoveMade(g, a, Rock), MoveMade(g, b, Scissors), GameWon(g, a)])
      == GameState(g, GameEnded(Won(a)))
  {
    var h := [GameCreated(g, a), MoveMade(g, a, Rock), MoveMade(g, b, Scissors), GameWon(g, a)];
    var s1 := GameState(g, NotStarted);
    var s2 := GameState(g, FirstMoveMade(PlayerMove(a, Rock)));
    assert FoldEvents(GameState(initialId, Uninitialized), h) == FoldEvents(s1, h[1..]);
    assert FoldEvents(s1, h[1..]) == FoldEvents(s2, h[2..]);
    assert FoldEvents(s2, h[2..]) == FoldEvents(s2, h[3..]);
  }
}
