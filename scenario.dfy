/** A client of the game: two players, two rounds, one correct answer. */
module Scenarios {

  import opened Wrappers
  import opened Players
  import opened Questions
  import opened Rounds
  import opened Games

  /** "Capital of France?" with the correct answer shuffled to the front. */
  function Capital(): Payload
  {
    Payload("Capital of France?", ["Berlin", "Rome", "Madrid"], "Paris")
  }

  function FrontOrder(): seq<int>
  {
    [3, 0, 1, 2]
  }

  lemma CapitalIsFirst()
    ensures IsPermutation(FrontOrder(), |AnswerPool(Capital())|)
    ensures CreateQuestion(Capital(), FrontOrder()).correctAnswer == Some(0)
  {
  }

  /** One round of the two-player game while the question timer runs: the
      first player answers `answer`, the second does not answer; then both
      timers fire. */
  method PlayRound(g: Game, answer: int)
    requires g.Valid() && !g.disposed && g.gameMode == Playing && g.timer.EndRoundAfter?
    requires g.correctAnswer == Some(0)
    requires |g.players| == 2 && g.players[0].user.id == "a" && g.players[1].user.id == "b"
    requires g.players[1].answer == Unanswered
    modifies g
    ensures g.Valid() && !g.disposed
    ensures (g.gameMode, g.roundIndex) == NextRound(old(g.roundIndex), g.numberOfRounds)
    ensures |g.players| == 2 && g.players[0].user.id == "a" && g.players[1].user.id == "b"
    ensures g.players[0].points == old(g.players[0].points) + (if answer == 0 then 5 else 0)
    ensures g.players[1].points == old(g.players[1].points)
    ensures g.gameMode == Playing ==>
      g.timer.EndRoundAfter? && g.correctAnswer == Some(0) && g.players[1].answer == Unanswered
  {
    CapitalIsFirst();
    g.SubmitAnswer("a", answer);
    assert g.players[0].answer == answer && g.players[1].answer == Unanswered;
    g.EndRound();
    assert |g.players| == 2 && g.players[0].user.id == "a" && g.players[1].user.id == "b";
    g.QueueNextRound(Capital(), FrontOrder());
  }

  /** Alice answers round 1 correctly and round 2 wrongly, Bob never answers:
      the game ends in the lobby with Alice at 5 points and Bob at 0. */
  method TwoRoundGame() returns (alice: int, bob: int, mode: Mode, index: nat)
    ensures alice == 5 && bob == 0
    ensures mode == Lobby && index == 0
  {
    var a := new User("a", "alice");
    var b := new User("b", "bob");
    var g := new Game(Options("geo", None, 4, "22", "easy", Some(2)), a, "g1");
    g.AddPlayer(a);
    g.AddPlayer(b);
    CapitalIsFirst();
    g.Start(Capital(), FrontOrder());
    assert g.players[0].points == 0 && g.players[1].points == 0;
    PlayRound(g, 0);
    PlayRound(g, 1);
    alice, bob := g.players[0].points, g.players[1].points;
    mode, index := g.gameMode, g.roundIndex;
  }
}
