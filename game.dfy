/** The per-game trivia state machine (game/Game.js, class Game). Timers and
    the question fetch are explicit: the caller invokes `EndRound` when the
    question timer fires, `QueueNextRound` when the results timer fires, and
    hands every operation that opens a round the provider's result together
    with the order the shuffle chose. */
module Games {

  import opened Wrappers
  import opened Players
  import opened Questions
  import opened Rounds

  /** A cursor position. */
  datatype Point = Point(x: int, y: int)

  /** What the game emits to the sockets of its room. */
  datatype GameEvent = Invalidate | EndOfGame | GameTick(coordinates: map<string, Point>)

  /** The one-shot round timer, with the delay in seconds it was armed with. */
  datatype RoundTimer = NoTimer | EndRoundAfter(seconds: nat) | NextRoundAfter(seconds: nat)

  /** The creation options. */
  datatype Options = Options(
    name: string,
    password: Option<string>,
    maxPlayers: int,
    category: string,
    difficulty: string,
    numberOfRounds: Option<int>)

  /** The snapshot for the list of games. */
  datatype ListItem = ListItem(gameId: string, name: string, host: PlayerData, playerCount: nat)

  /** One roster entry as the full snapshot shows it. */
  datatype PlayerView = PlayerView(isPlaying: bool, user: PlayerData, points: int, answer: int)

  /** The full snapshot clients fetch after an invalidation. */
  datatype GameState = GameState(
    item: ListItem,
    maxPlayers: int,
    players: seq<PlayerView>,
    gameMode: Mode,
    roundIndex: int,
    numberOfRounds: int,
    question: Option<Question>)

  function View(p: Player): PlayerView
  {
    PlayerView(p.isPlaying, ToPlayerData(p.user), p.points, p.answer)
  }

  class Game {
    const name: string
    const gameId: string
    const hostUser: User
    const password: Option<string>
    const maxPlayers: int
    const category: string
    const difficulty: string
    const numberOfRounds: int
    const questionDuration: nat
    const resultsDuration: nat

    var players: seq<Player>
    var gameMode: Mode
    var roundIndex: nat
    /** The outward question; its correct index is absent until revealed. */
    var question: Option<Question>
    /** The correct index of the current question, held back from `question`. */
    var correctAnswer: Option<int>
    var coordinates: map<string, Point>
    /** Whether the 50 ms cursor broadcast is still scheduled. */
    var ticking: bool
    var disposed: bool
    var timer: RoundTimer
    var broadcasts: seq<GameEvent>

    /** The game's invariant: the round index names a round the game plays
        and is 0 in the lobby, where no round timer is armed; a question and
        its correct index are stored together, and the index is hidden while
        the question timer runs; the cursor broadcast runs until disposal. */
    ghost predicate Valid()
      reads this
    {
      && roundIndex < RoundsPlayed(numberOfRounds)
      && (gameMode == Lobby ==> roundIndex == 0 && timer == NoTimer)
      && (question.Some? <==> correctAnswer.Some?)
      && (question.Some? ==>
            && 0 <= correctAnswer.value < |question.value.answers|
            && (question.value.correctAnswer.Some? ==> question.value.correctAnswer == correctAnswer))
      && (timer.EndRoundAfter? ==> question.Some? && question.value.correctAnswer.None?)
      && ticking == !disposed
    }

    /** The question of `u` shuffled by `order` is the current one, stored
        without its correct index, which is kept aside. */
    ghost predicate QuestionAssigned(u: Payload, order: seq<int>)
      requires IsPermutation(order, |AnswerPool(u)|)
      reads this
    {
      var q := CreateQuestion(u, order);
      question == Some(q.(correctAnswer := None)) && correctAnswer == q.correctAnswer
    }

    constructor (options: Options, hostUser: User, gameId: string)
      ensures Valid()
      ensures name == options.name && this.gameId == gameId && this.hostUser == hostUser
      ensures password == options.password && maxPlayers == options.maxPlayers
      ensures category == options.category && difficulty == options.difficulty
      ensures numberOfRounds == ConfiguredRounds(options.numberOfRounds)
      ensures questionDuration == 5 && resultsDuration == 3
      ensures players == [] && gameMode == Lobby && roundIndex == 0
      ensures question == None && correctAnswer == None && coordinates == map[]
      ensures ticking && !disposed && timer == NoTimer && broadcasts == []
    {
      name := options.name;
      this.gameId := gameId;
      this.hostUser := hostUser;
      password := options.password;
      maxPlayers := options.maxPlayers;
      players := [];
      gameMode := Lobby;
      category := options.category;
      difficulty := options.difficulty;
      numberOfRounds := ConfiguredRounds(options.numberOfRounds);
      roundIndex := 0;
      question := None;
      correctAnswer := None;
      coordinates := map[];
      questionDuration := 5;
      resultsDuration := 3;
      ticking := true;
      disposed := false;
      timer := NoTimer;
      broadcasts := [];
    }

    /** Emits `e` to the game's room. */
    method Broadcast(e: GameEvent)
      modifies this`broadcasts
      ensures broadcasts == old(broadcasts) + [e]
    {
      broadcasts := broadcasts + [e];
    }

    /** Tells the room that the game state changed. */
    method InvalidateGameData()
      modifies this`broadcasts
      ensures broadcasts == old(broadcasts) + [Invalidate]
    {
      Broadcast(Invalidate);
    }

    /** One firing of the cursor broadcast, which only fires while scheduled. */
    method Tick()
      requires ticking
      modifies this`broadcasts
      ensures broadcasts == old(broadcasts) + [GameTick(coordinates)]
    {
      Broadcast(GameTick(coordinates));
    }

    /** Starts the game from the lobby: everybody on the roster plays from
        zero points, in round 0. In a running game it does nothing. */
    method Start(u: Payload, order: seq<int>)
      requires Valid()
      requires IsPermutation(order, |AnswerPool(u)|)
      modifies this`gameMode, this`roundIndex, this`players, this`question,
               this`correctAnswer, this`timer, this`broadcasts
      ensures Valid()
      ensures old(gameMode) == Playing ==> unchanged(this)
      ensures old(gameMode) == Lobby ==>
        && gameMode == Playing && roundIndex == 0
        && |players| == |old(players)|
        && (forall i :: 0 <= i < |players| ==>
              players[i] == old(players)[i].(points := 0, isPlaying := true,
                               answer := if disposed then old(players)[i].answer else Unanswered))
        && (disposed ==> question == old(question) && correctAnswer == old(correctAnswer)
                         && timer == NoTimer && broadcasts == old(broadcasts))
        && (!disposed ==> QuestionAssigned(u, order) && timer == EndRoundAfter(questionDuration)
                          && broadcasts == old(broadcasts) + [Invalidate])
    {
      if gameMode == Playing {
        return;
      }
      gameMode := Playing;
      roundIndex := 0;
      var ps := players;
      var i := 0;
      while i < |ps|
        invariant 0 <= i <= |ps| == |players|
        invariant forall k :: 0 <= k < i ==> ps[k] == players[k].(points := 0, isPlaying := true)
        invariant forall k :: i <= k < |ps| ==> ps[k] == players[k]
      {
        ps := ps[i := ps[i].(points := 0, isPlaying := true)];
        i := i + 1;
      }
      players := ps;
      StartRound(u, order);
    }

    /** Opens the current round: clears every answer, takes the round's
        question and arms the question timer. A disposed game opens nothing. */
    method StartRound(u: Payload, order: seq<int>)
      requires Valid() && gameMode == Playing && timer == NoTimer
      requires IsPermutation(order, |AnswerPool(u)|)
      modifies this`players, this`question, this`correctAnswer, this`timer, this`broadcasts
      ensures Valid()
      ensures disposed ==> unchanged(this)
      ensures !disposed ==>
        && |players| == |old(players)|
        && (forall i :: 0 <= i < |players| ==> players[i] == old(players)[i].(answer := Unanswered))
        && QuestionAssigned(u, order)
        && timer == EndRoundAfter(questionDuration)
        && broadcasts == old(broadcasts) + [Invalidate]
    {
      if disposed {
        return;
      }
      var ps := players;
      var i := 0;
      while i < |ps|
        invariant 0 <= i <= |ps| == |players|
        invariant forall k :: 0 <= k < i ==> ps[k] == players[k].(answer := Unanswered)
        invariant forall k :: i <= k < |ps| ==> ps[k] == players[k]
      {
        ps := ps[i := ps[i].(answer := Unanswered)];
        i := i + 1;
      }
      players := ps;
      AssignQuestion(u, order);
      InvalidateGameData();
      timer := EndRoundAfter(questionDuration);
    }

    /** Stores the question built from `u` and `order`, with its correct index
        removed from the outward question and kept aside. */
    method AssignQuestion(u: Payload, order: seq<int>)
      requires Valid()
      requires IsPermutation(order, |AnswerPool(u)|)
      modifies this`question, this`correctAnswer
      ensures Valid()
      ensures QuestionAssigned(u, order)
    {
      var q := CreateQuestion(u, order);
      correctAnswer := q.correctAnswer;
      question := Some(q.(correctAnswer := None));
    }

    /** Closes the round when the question timer fires: reveals the correct
        index, awards the fixed points to every player who chose it and arms
        the results timer. */
    method EndRound()
      requires Valid() && timer.EndRoundAfter?
      modifies this`question, this`players, this`timer, this`broadcasts
      ensures Valid()
      ensures correctAnswer.Some? && question.Some?
      ensures question == Some(old(question).value.(correctAnswer := correctAnswer))
      ensures players == Awarded(old(players), correctAnswer.value)
      ensures timer == NextRoundAfter(resultsDuration)
      ensures broadcasts == old(broadcasts) + [Invalidate]
    {
      question := Some(question.value.(correctAnswer := correctAnswer));
      var correct := correctAnswer.value;
      var ps := players;
      var i := 0;
      while i < |ps|
        invariant 0 <= i <= |ps| == |players|
        invariant forall k :: 0 <= k < i ==>
          ps[k] == if players[k].answer == correct
                   then players[k].(points := players[k].points + PointsPerCorrectAnswer)
                   else players[k]
        invariant forall k :: i <= k < |ps| ==> ps[k] == players[k]
      {
        if ps[i].answer == correct {
          ps := ps[i := ps[i].(points := ps[i].points + PointsPerCorrectAnswer)];
        }
        i := i + 1;
      }
      assert ps == Awarded(players, correct);
      players := ps;
      InvalidateGameData();
      timer := NextRoundAfter(resultsDuration);
    }

    /** Moves on when the results timer fires: to the next round, or, after
        the last one, back to the lobby with index 0. */
    method QueueNextRound(u: Payload, order: seq<int>)
      requires Valid() && timer.NextRoundAfter?
      requires IsPermutation(order, |AnswerPool(u)|)
      modifies this`gameMode, this`roundIndex, this`players, this`question,
               this`correctAnswer, this`timer, this`broadcasts
      ensures Valid()
      ensures (gameMode, roundIndex) == NextRound(old(roundIndex), numberOfRounds)
      ensures gameMode == Lobby ==>
        && players == old(players) && question == old(question) && correctAnswer == old(correctAnswer)
        && timer == NoTimer && broadcasts == old(broadcasts) + [EndOfGame, Invalidate]
      ensures gameMode == Playing && disposed ==>
        && players == old(players) && question == old(question) && correctAnswer == old(correctAnswer)
        && timer == NoTimer && broadcasts == old(broadcasts)
      ensures gameMode == Playing && !disposed ==>
        && |players| == |old(players)|
        && (forall i :: 0 <= i < |players| ==> players[i] == old(players)[i].(answer := Unanswered))
        && QuestionAssigned(u, order)
        && timer == EndRoundAfter(questionDuration)
        && broadcasts == old(broadcasts) + [Invalidate]
    {
      timer := NoTimer;
      roundIndex := roundIndex + 1;
      if roundIndex >= numberOfRounds {
        roundIndex := 0;
        EndGame();
      } else {
        StartRound(u, order);
      }
    }

    /** Returns a game whose index is already back at 0 to the lobby. */
    method EndGame()
      requires Valid() && roundIndex == 0 && timer == NoTimer
      modifies this`gameMode, this`broadcasts
      ensures Valid() && gameMode == Lobby
      ensures broadcasts == old(broadcasts) + [EndOfGame, Invalidate]
    {
      gameMode := Lobby;
      Broadcast(EndOfGame);
      InvalidateGameData();
    }

    /** The small snapshot for the list of games. */
    function ToListItem(): (r: ListItem)
      reads this
      ensures r.gameId == gameId && r.name == name
      ensures r.host == ToPlayerData(hostUser)
      ensures r.playerCount == |players|
    {
      ListItem(gameId, name, ToPlayerData(hostUser), |players|)
    }

    /** The full snapshot: the round shown counts from 1 and never exceeds
        the rounds the game plays, and while the question timer runs the
        question carries no correct index. */
    function ToGameState(): (s: GameState)
      requires Valid()
      reads this
      ensures s.item == ToListItem() && s.item.playerCount == |s.players|
      ensures |s.players| == |players|
      ensures forall i :: 0 <= i < |players| ==>
        s.players[i].points == players[i].points && s.players[i].answer == players[i].answer
        && s.players[i].isPlaying == players[i].isPlaying && s.players[i].user.id == players[i].user.id
      ensures s.roundIndex == roundIndex + 1
      ensures 1 <= s.roundIndex <= RoundsPlayed(numberOfRounds)
      ensures s.gameMode == gameMode && s.numberOfRounds == numberOfRounds
      ensures s.maxPlayers == maxPlayers
      ensures forall i :: 0 <= i < |players| ==> s.players[i] == View(players[i])
      ensures s.question == question
      ensures timer.EndRoundAfter? ==> s.question.Some? && s.question.value.correctAnswer == None
      ensures s.question.Some? && s.question.value.correctAnswer.Some? ==>
        s.question.value.correctAnswer == correctAnswer
        && 0 <= correctAnswer.value < |s.question.value.answers|
    {
      GameState(
        ToListItem(),
        maxPlayers,
        seq(|players|, i requires 0 <= i < |players| reads this => View(players[i])),
        gameMode,
        roundIndex + 1,
        numberOfRounds,
        question)
    }

    /** Enrols `u` as a spectator of any running game, with no answer and no
        points, and points the user at this game. */
    method AddPlayer(u: User)
      requires Valid()
      modifies this`players, this`broadcasts, u`gameId
      ensures Valid()
      ensures players == old(players) + [Joined(u)]
      ensures u.gameId == gameId
      ensures broadcasts == old(broadcasts) + [Invalidate]
    {
      u.gameId := gameId;
      players := players + [Joined(u)];
      InvalidateGameData();
    }

    /** Removes every entry of the user's identity; a user not on the roster
        changes nothing. */
    method RemovePlayer(u: User)
      requires Valid()
      modifies this`players, u`gameId
      ensures Valid()
      ensures players == Without(old(players), u.id)
      ensures FindPlayer(old(players), u.id).None? ==> players == old(players) && u.gameId == old(u.gameId)
      ensures FindPlayer(old(players), u.id).Some? ==> u.gameId == ""
    {
      var found := FindPlayer(players, u.id);
      if found.None? {
        WithoutAbsent(players, u.id);
        return;
      }
      u.gameId := "";
      players := Without(players, u.id);
    }

    /** Records the answer of the first player of identity `userId`; an
        unknown identity changes nothing and emits nothing. */
    method SubmitAnswer(userId: string, answer: int)
      requires Valid()
      modifies this`players, this`broadcasts
      ensures Valid()
      ensures players == WithAnswer(old(players), userId, answer)
      ensures FindPlayer(old(players), userId).None? ==>
        players == old(players) && broadcasts == old(broadcasts)
      ensures FindPlayer(old(players), userId).Some? ==>
        broadcasts == old(broadcasts) + [Invalidate]
    {
      var found := FindPlayer(players, userId);
      if found.None? {
        return;
      }
      var k := found.value;
      players := players[k := players[k].(answer := answer)];
      InvalidateGameData();
    }

    /** Records the latest cursor position of `userId`. */
    method OnMoveCursor(userId: string, x: int, y: int)
      modifies this`coordinates
      ensures coordinates == old(coordinates)[userId := Point(x, y)]
      ensures userId in coordinates && coordinates[userId] == Point(x, y)
      ensures forall id :: id in old(coordinates) && id != userId ==> id in coordinates && coordinates[id] == old(coordinates)[id]
    {
      coordinates := coordinates[userId := Point(x, y)];
    }

    /** Stops the cursor broadcast and marks the game disposed. */
    method Dispose()
      requires Valid()
      modifies this`ticking, this`disposed
      ensures Valid() && disposed && !ticking
    {
      ticking := false;
      disposed := true;
    }
  }
}
