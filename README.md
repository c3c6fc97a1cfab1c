# Event-sourced rock-paper-scissors, modelled in Dafny

This project models the decision core of a two-player rock-paper-scissors
game that is event sourced. The game's state is never stored. It is rebuilt
by replaying the game's events, and every change is decided by a pure
command handler that returns new events. The core has three parts:

- **Domain** (`Domain.dfy`): the `Move` type and its `Beats` relation,
  `PlayerMove`, `GameResult`, the four-state `GameProgress` machine,
  `GameState`, `Command`, and one `Event` datatype with the four event
  kinds `GameCreated`, `MoveMade`, `GameWon` and `GameTied`.
- **Reconstructor** (`Reconstructor.dfy`): the per-event step `Apply`, its
  left fold `FoldEvents`, and `RecreateFrom`, which folds a history from an
  uninitialized state.
- **Handler** (`Handler.dfy`): `CreateGame`, `Play` (with the result rule
  `ResultEvent`) and `Handle`, a total function from a state and a command
  to zero, one or two events.

`Protocol.dfy` connects the two halves. `Intended` is a reference
definition of the transition each command is meant to cause, and `Judge`
decides a game independently of the handler's branch order. The lemmas
prove that replaying the handler's events makes exactly that transition.
`History` is the history a caller builds by folding, handling and
appending, command after command. Every such history is proved well formed:
at most four events, one game id throughout, and contents that match the
progress it replays to.

Game and player identifiers are `nat` values that are only compared for
equality. In the Swift program they are UUIDs. The placeholder id of the
uninitialized starting state is a random UUID there; here it is the
parameter `initialId` of `RecreateFrom`.

Three facts about the code that the model states outright:

- A finished game holds four events: created, move, move, result
  (`RPS-Swift/RPS.swift:110-138`, `Protocol.HistoryBounds`).
- A single game id throughout holds only for histories built through the
  handler (`Protocol.HistoryBounds`). `Apply` takes the id from each event
  (`RPS-Swift/RPS.swift:76-94`) and does not check it.
- Replaying a second `MoveMade` without the result event after it leaves
  the first move in place (`Reconstructor.SecondMoveAloneIsIgnored`). This
  is the code's behaviour, and it is kept. Histories built through the
  handler never end there, because the handler always returns the second
  move together with its result (`Protocol.WellFormed`).

## Model

| member | source | states |
|---|---|---|
| Domain.Move.Beats | RPS-Swift/RPS.swift:11-17 | a move beats another exactly when it stands one step after it on the cycle rock, paper, scissors; no move beats itself |
| Domain.BeatsIsStrictTournament | RPS-Swift/RPS.swift:11-17 | no move beats itself; of two distinct moves exactly one beats the other |
| Domain.BeatsIsCyclic | RPS-Swift/RPS.swift:11-17 | rock beats scissors, paper beats rock, scissors beats paper; each move beats exactly one move and loses to exactly one |
| Domain.Stage | RPS-Swift/RPS.swift:31-36 | the four progress states in their one order: uninitialized 0, notStarted 1, firstMoveMade 2, gameEnded 3 |
| Reconstructor.Apply | RPS-Swift/RPS.swift:73-100 | GameCreated gives (event id, notStarted) from any progress; MoveMade fires only from notStarted, GameWon and GameTied only from firstMoveMade; any other event leaves the state unchanged; a step that fires advances exactly one stage and takes the event's id |
| Reconstructor.FoldEvents | RPS-Swift/RPS.swift:105 | the left fold of Apply: no events leave the state as it is; a fold that ends uninitialized changed nothing; a history ending in GameCreated ends in that game, not started |
| Reconstructor.RecreateFrom | RPS-Swift/RPS.swift:103-105 | replaying no events gives the uninitialized starting state; a replay is uninitialized, under the starting id, exactly when the history holds no GameCreated |
| Reconstructor.FoldAppend | RPS-Swift/RPS.swift:103-105 | replaying xs + ys equals replaying ys from the state xs leaves |
| Reconstructor.RecreateSnoc | RPS-Swift/RPS.swift:103-105 | appending one event to a history is one more Apply step on its recreated state |
| Reconstructor.UninitializedIffNeverCreated | RPS-Swift/RPS.swift:73-105 | a replay is still uninitialized exactly when the history has no GameCreated, and then it keeps the starting state |
| Reconstructor.NeverUninitializedAfterCreate | RPS-Swift/RPS.swift:73-100 | no event returns a created game to uninitialized |
| Reconstructor.EndedIsFinal | RPS-Swift/RPS.swift:77-97 | an ended game ignores every event except GameCreated |
| Reconstructor.StageNeverRegresses | RPS-Swift/RPS.swift:77-97 | without GameCreated, replay never moves back and advances at most one stage per event |
| Reconstructor.SecondMoveAloneIsIgnored | RPS-Swift/RPS.swift:77-83 | a MoveMade replayed on firstMoveMade keeps the first move |
| Reconstructor.ReplayFinishedGame | RPS-Swift/RPS.swift:72-106 | [Created(G,A), Move(G,A,rock), Move(G,B,scissors), Won(G,A)] recreates (G, gameEnded(won(A))) |
| Handler.CreateGame | RPS-Swift/RPS.swift:110-117 | exactly [GameCreated(gameId, creator)] on uninitialized; no events for every other progress |
| Handler.ResultEvent | RPS-Swift/RPS.swift:125-133 | the closing event carries the game id; it is a tie exactly when the moves are equal; otherwise the player whose move beats the other's wins |
| Handler.Play | RPS-Swift/RPS.swift:119-138 | notStarted: exactly [MoveMade(state id, player, move)]; firstMoveMade: that move then the tie or winner event; uninitialized or ended: no events |
| Handler.Handle | RPS-Swift/RPS.swift:140-147 | at most two events; none exactly when create meets an existing game or a move meets an uninitialized or ended one; every event carries the created id or, for a move, the state's id; the move command's own id is not consulted |
| Handler.CreateOnFreshState | RPS-SwiftTests/RPS_SwiftTests.swift:14-29 | creating on an uninitialized state yields the single GameCreated with the supplied id and creator |
| Protocol.FirstMoveAfterCreate | RPS-SwiftTests/RPS_SwiftTests.swift:32-50 | a move on the state recreated from [GameCreated(g, a)] yields exactly [MoveMade(g, a, m)] |
| Handler.PaperAnswersRock | RPS-SwiftTests/RPS_SwiftTests.swift:53-76 | paper after rock yields [MoveMade(G,B,paper), GameWon(G,B)] |
| Handler.SameMoveTies | RPS-SwiftTests/RPS_SwiftTests.swift:78-101 | an equal second move yields [MoveMade(G,B,m), GameTied(G)] |
| Protocol.Judge | RPS-Swift/RPS.swift:125-133 | reference result: a tie exactly when the moves are equal; a winner's move beats the loser's |
| Protocol.ResultEventIsJudged | RPS-Swift/RPS.swift:123-134 | the handler's closing event equals the reference judgement of the two moves |
| Protocol.Intended | RPS-Swift/RPS.swift:110-138 | a command changes nothing or advances the state exactly one stage, keeping the game id or, for a create, setting the created one |
| Protocol.NoEventsIffNoChange | RPS-Swift/RPS.swift:110-138 | the handler returns no events exactly when the command is meant to change nothing |
| Protocol.HandleThenReplay | RPS-Swift/RPS.swift:73-138 | replaying the handler's events from the state it was given makes exactly the intended transition |
| Protocol.ReplayAfterHandle | RPS-Swift/RPS.swift:72-147 | recreate(h + handle(recreate(h), cmd)) is the intended transition of recreate(h) |
| Protocol.HandlePreservesWellFormed | RPS-Swift/RPS.swift:72-147 | appending the handler's answer keeps a history well formed: one game id, and created, first move, second move and the judged result in that order |
| Protocol.HistoryIsWellFormed | RPS-Swift/RPS.swift:72-147 | every history built by handling commands one after another is well formed |
| Protocol.HistoryBounds | RPS-Swift/RPS.swift:72-147 | such a history has at most four events (never three), all with the game's id, and has four exactly when the game has ended |
| Protocol.RockBeatsScissorsThroughHandler | RPS-Swift/RPS.swift:72-147 | create, rock, then scissors from the second player yields the four events of a first-mover win and recreates (G, gameEnded(won(A))) |

## Left out

- Random identifiers: the fresh UUID of the starting state (`RPS-Swift/RPS.swift:104`) is the parameter `initialId`; identifier generation and uniqueness are not modelled.
- Dynamic event dispatch: the `DomainEvent` protocol and its casts (`RPS-Swift/RPS.swift:48-50, 74-99`) are one closed `Event` datatype, so the `default` branch at line 98 cannot occur and is not modelled.
- `Equatable` conformance of the event structs is Dafny's structural equality on datatypes.
- The XCTest file `RPS-SwiftTests/RPS_SwiftTests.swift` is not modelled; its assertions are stated as the lemmas `CreateOnFreshState`, `FirstMoveAfterCreate`, `PaperAnswersRock` and `SameMoveTies`.
- Event store, persistence, append order and concurrency are outside the repository. The caller is modelled only as `Protocol.History`, which handles commands one at a time against the replayed state.
