/** The round counter of a trivia game (game/Game.js, queueNextRound). */
module Rounds {

  import opened Wrappers

  /** `Mode.LOBBY` and `Mode.GAME`. */
  datatype Mode = Lobby | Playing

  const DefaultNumberOfRounds: int := 10

  /** `options.numberOfRounds ? options.numberOfRounds : 10`: an absent or
      zero option falls back to the default. */
  function ConfiguredRounds(requested: Option<int>): (n: int)
    ensures n != 0
    ensures requested == None || requested == Some(0) ==> n == DefaultNumberOfRounds
    ensures requested.Some? && requested.value != 0 ==> n == requested.value
  {
    if requested == None || requested == Some(0) then DefaultNumberOfRounds else requested.value
  }

  /** The number of rounds a game with `numberOfRounds == n` actually plays:
      a count below one still plays the round that `start` opens. */
  function RoundsPlayed(n: int): (c: nat)
  {
    if n >= 1 then n else 1
  }

  /** Mode and round index once `queueNextRound` fires after round i. */
  function NextRound(i: nat, n: int): (r: (Mode, nat))
  {
    if i + 1 >= n then (Lobby, 0) else (Playing, i + 1)
  }

  /** Mode and round index after k rounds of a game started in round 0; once
      back in the lobby no further round fires. */
  function AfterRounds(n: int, k: nat): (r: (Mode, nat))
  {
    if k == 0 then (Playing, 0)
    else
      var prev := AfterRounds(n, k - 1);
      if prev.0 == Lobby then (Lobby, 0) else NextRound(prev.1, n)
  }

  /** A game plays exactly `RoundsPlayed(n)` rounds: before that it is in the
      round numbered by the rounds played so far, then it is back in the lobby
      with index 0. */
  lemma {:induction false} GameLength(n: int, k: nat)
    ensures AfterRounds(n, k) == if k < RoundsPlayed(n) then (Playing, k) else (Lobby, 0)
  {
    if k > 0 {
      GameLength(n, k - 1);
    }
  }
}
