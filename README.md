# Trivia game session, modelled in Dafny

This project models `game/Game.js` of a real-time trivia backend. That file holds the per-game
state machine, class `Game`. A host creates a game. Users join its roster. `start` moves the game
from the lobby into play. Each round then:

- `startRound` clears every answer and fetches a question;
- the correct answer index is kept out of the outward question object;
- when the question timer fires, `endRound` reveals the index and gives 5 points to every player
  whose answer matches it;
- when the results timer fires, `queueNextRound` opens the next round, or after the last round
  returns the game to the lobby.

Players submit answers by user id. Cursor positions are stored per user id and broadcast on a
50 ms tick until the game is disposed.

The model has six modules, one file each:

- `wrappers.dfy` (`Wrappers`): `Option`, which stands for JavaScript's `undefined` fields and for
  "not found".
- `players.dfy` (`Players`): the caller-owned `User` object, the `Player` roster entry, and the
  whole-roster updates as functions, with lemmas about them.
  - `FindPlayer` models `find`.
  - `Awarded` models the end-of-round award.
  - `WithAnswer` models a submission.
  - `Without` models the `filter` in `removePlayer`.
- `questions.dfy` (`Questions`): `createQuestion`'s answer assembly.
  - The shuffle is passed in as an index permutation `order`.
  - `indexOf` is the function `IndexOf`.
  - The proof that the shown answers are a permutation of the pool is `GatherIsPermutation`.
- `rounds.dfy` (`Rounds`): the game mode, the default round count, the `queueNextRound` counter
  step, and the lemma that a game plays exactly its number of rounds.
- `game.dfy` (`Games`): class `Game`.
  - Its fields are the constructor's state fields.
  - `Valid()` is its invariant.
  - Each source method becomes a method whose `ensures` gives the whole new state.
  - The two snapshot functions are `ToListItem` and `ToGameState`.
- `scenario.dfy` (`Scenarios`): a client that plays a two-round game with two players.

Timers and the asynchronous fetch become explicit steps:

- The source's pending `setTimeout` is the field `timer`, which holds `EndRoundAfter(5)` or
  `NextRoundAfter(3)`.
- `EndRound` may be called only while `timer` is `EndRoundAfter`. `QueueNextRound` may be called
  only while it is `NextRoundAfter`. This matches the source, where those timers are the only
  callers of these methods.
- Every operation that opens a round (`Start`, `StartRound`, `QueueNextRound`) receives the
  fetched provider result (`Payload`) and the shuffle's `order`.
- Every emit to the game's room is appended to the field `broadcasts`.

The model follows the code as written, in particular:

- `dispose` clears only the cursor interval. It does not cancel the round timer, so the timers
  still fire after disposal. `startRound` then returns without opening a round, and the game
  stays in `Playing`.
- `removePlayer` emits no game invalidation.
- `endRound` awards every matching player, including spectators who joined mid-game
  (`isPlaying == false`).
- `submitAnswer` is accepted in any mode.
- `addPlayer` does not reject an identity that is already on the roster. `find` therefore
  addresses the first entry with that identity, and `filter` removes all of them.
- A `numberOfRounds` below 1 still plays the round that `start` opens (`Rounds.RoundsPlayed`).

## Model

| member | source | states |
|---|---|---|
| `Players.FindPlayer` | game/Game.js:211 | None exactly when no entry has the id; otherwise the index of the first entry with that id |
| `Players.Awarded` | game/Game.js:110-118 | same length; every player whose answer equals the correct index gains exactly 5 points, every other entry is unchanged; points never decrease |
| `Players.AwardedTotal` | game/Game.js:117 | one round raises the roster's total points by exactly 5 times the number of correct answers |
| `Players.UnansweredScoresNothing` | game/Game.js:90 | with a non-negative correct index, a roster where every answer is the sentinel -1 is unchanged by the award |
| `Players.WithAnswer` | game/Game.js:265-268 | same length; only the first entry with the id gets the new answer, nothing else changes; an unknown id leaves the roster as it was |
| `Players.SecondAnswerWins` | game/Game.js:265-268 | submitting twice for the same id equals submitting only the second answer |
| `Players.Without` | game/Game.js:231 | every kept entry was on the roster and has a different id; every entry with a different id is kept |
| `Players.WithoutAbsent` | game/Game.js:211-213 | removing an id no entry has leaves the roster unchanged |
| `Players.WithoutAppend` | game/Game.js:231 | the filter keeps the original order: it splits over concatenation |
| `Players.WithoutLength` | game/Game.js:231 | the roster shrinks by exactly the number of entries with the id |
| `Players.WithoutIdempotent` | game/Game.js:231 | removing twice equals removing once |
| `Players.RemoveUndoesJoin` | game/Game.js:182-231 | removing a user right after their entry was appended gives the filtered earlier roster |
| `Questions.GatherIsPermutation` | game/Game.js:285 | rearranging the answer pool by a permutation keeps the multiset of answers |
| `Questions.IndexOf` | game/Game.js:288 | -1 exactly when the answer is absent; otherwise the answer is at that position and not before it |
| `Questions.CreateQuestion` | game/Game.js:283-290 | prompt copied; the answers are the shuffled pool of wrong answers plus the right one (same length and multiset, position i shows pool[order[i]]); the correct index is in range and is the first position showing the correct answer |
| `Questions.CorrectIndexFollowsShuffle` | game/Game.js:285-288 | when the right answer is not also a wrong one, the stored index is where the shuffle moved the right answer |
| `Rounds.ConfiguredRounds` | game/Game.js:42 | an absent or zero option gives the default 10; any other value is kept |
| `Rounds.GameLength` | game/Game.js:131-140 | after k rounds, a game is in round k while k is below its round count; afterwards it is in the lobby with index 0 |
| `Games.Game.constructor` | game/Game.js:27-60 | options copied; empty roster, lobby, index 0, no question or correct index, empty cursor map, ticking, not disposed, no round timer, durations 5 and 3 |
| `Games.Game.Broadcast` | game/Game.js:234-237 | the event is appended to the room's broadcasts |
| `Games.Game.InvalidateGameData` | game/Game.js:101-103 | one invalidation is appended |
| `Games.Game.Tick` | game/Game.js:53-55 | while the interval runs, the current cursor map is broadcast |
| `Games.Game.Start` | game/Game.js:62-82 | in a running game nothing changes; from the lobby: mode GAME, index 0, same player count, every player at 0 points and playing, then the effect of StartRound |
| `Games.Game.StartRound` | game/Game.js:84-99 | a disposed game is unchanged; otherwise every answer is -1, points unchanged, the question is assigned hidden, one invalidation, question timer armed for 5 s |
| `Games.Game.AssignQuestion` | game/Game.js:256-261 | the outward question is the created one without its correct index, which is stored apart |
| `Games.Game.EndRound` | game/Game.js:105-129 | the outward question now carries the stored correct index; the roster is Awarded by it; one invalidation; results timer armed for 3 s |
| `Games.Game.QueueNextRound` | game/Game.js:131-140 | mode and index follow the counter step; at the end: lobby, index 0, roster unchanged, END_GAME then INVALIDATE; otherwise the StartRound effect |
| `Games.Game.EndGame` | game/Game.js:142-148 | mode LOBBY; END_GAME then INVALIDATE broadcast |
| `Games.Game.ToListItem` | game/Game.js:150-158 | id, name, host data and playerCount equal to the roster length |
| `Games.Game.ToGameState` | game/Game.js:160-179 | the displayed round is roundIndex + 1, within 1..round count; maxPlayers, mode and round count copied; each roster view is the player's isPlaying, user data, points and answer; the question shown is the game's own question; while the question timer runs the question has no correct index; a revealed index is the stored one |
| `Games.Game.AddPlayer` | game/Game.js:181-208 | exactly one entry appended (not playing, answer -1, 0 points); the user points at this game; one invalidation |
| `Games.Game.RemovePlayer` | game/Game.js:210-232 | the roster becomes the filter by id; an absent id changes nothing, including the user; otherwise the user's game id is cleared |
| `Games.Game.SubmitAnswer` | game/Game.js:263-271 | roster becomes WithAnswer; an unknown id changes nothing and emits nothing; a known one emits one invalidation |
| `Games.Game.OnMoveCursor` | game/Game.js:244-248 | last write wins: the user's entry is the new point, every other entry is unchanged |
| `Games.Game.Dispose` | game/Game.js:250-254 | disposed and the cursor interval stopped; calling again leaves the same state |
| `Scenarios.CapitalIsFirst` | game/Game.js:288 | a concrete question whose shuffle puts the right answer first stores correct index 0 |
| `Scenarios.PlayRound` | game/Game.js:105-140 | in a two-player round, the first player gains 5 points exactly when answering 0, the second keeps their points, and the counter steps |
| `Scenarios.TwoRoundGame` | game/Game.js:62-148 | two rounds, first player right then wrong, second silent: ends in the lobby at index 0 with scores 5 and 0 |

## Left out

- Timing: the 50 ms `setInterval`, the 5 s and 3 s `setTimeout`s and the 200 ms delayed invalidation in `addPlayer`. Timers become explicit calls. `addPlayer`'s invalidation is appended when it is called.
- Asynchrony: `startRound` awaits the fetch. In the model a round opens in one step, so a submission that arrives while the question is being fetched is not modelled.
- The network fetch and its unbounded do-while retry over `isValidQuestion` (game/Game.js:279-282). The caller passes the accepted result. `utils/Util` is not part of this model: its `isValidQuestion` is not needed by the proofs, and its `shuffle` is replaced by the permutation `order`.
- Sockets: joining and leaving the room, `Connection.getSocket`, and registering the cursor listener (`addConnectionListeners`). `OnMoveCursor` can be called at any time, also after disposal, as in the source, where the listener is never removed.
- Persistence through `UserHandler` and `UserSchema`, and the per-user invalidation after it.
- `uuidv4`, which becomes the constructor's `gameId` parameter, and `console.log`.
- The player field `state`, which is never assigned, and the field `spectators`, which `start` sets and nothing reads.
- `toPlayerData` is not part of this model. It is taken as the projection to id and username.
- JavaScript values:
  - answers are integers compared by strict equality;
  - cursor coordinates are integers, not floating point;
  - user ids are strings;
  - points are unbounded integers, where the source has doubles that are exact up to 2^53;
  - of the falsy `numberOfRounds` values, only absent and 0 are modelled.
- Player entries are values that the game rebuilds in place of the source's mutated objects. Nothing outside the game holds a reference to them, so no aliasing is lost.
- Games.Game.EndRound: requires the question timer to be pending, because that timer is its only caller. Called any other way, the source behaves as follows, and the model does not cover it:
  - Before the first question has been assigned, it throws on the undefined `question`.
  - At any later point it finds the last assigned question: a second call in the same round, a call during the results pause, or a call in the lobby after a game. It then reveals the index again and adds 5 points to every matching player a second time.
- Games.Game.AddPlayer and Games.Game.RemovePlayer: the user's socket is assumed to exist. If `Connection.getSocket` returns undefined, the source throws at `player.socket.join` or `player.socket.leave`. By then `user.gameID` has already been set (or cleared), but the roster has not changed. The model always updates both.
