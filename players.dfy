/** Roster entries of one trivia game and the whole-roster updates the game
    applies to them (game/Game.js). */
module Players {

  import opened Wrappers

  /** The caller-owned user object. The game reads its identity and display
      name and writes its `gameID` field on join and leave. */
  class User {
    const id: string
    const username: string
    var gameId: string

    constructor (id: string, username: string)
      ensures this.id == id && this.username == username && gameId == ""
    {
      this.id := id;
      this.username := username;
      gameId := "";
    }
  }

  /** The answer a player holds before submitting one in the current round. */
  const Unanswered: int := -1

  /** The fixed award for a correct answer. */
  const PointsPerCorrectAnswer: int := 5

  /** One roster entry: the user, whether they joined before the running game
      started (false: spectating), the answer index of this round, the points
      of this game. */
  datatype Player = Player(user: User, isPlaying: bool, answer: int, points: int)

  /** The light projection of a user shown to clients. */
  datatype PlayerData = PlayerData(id: string, username: string)

  function ToPlayerData(u: User): PlayerData
  {
    PlayerData(u.id, u.username)
  }

  /** The entry `addPlayer` creates for a newly joined user. */
  function Joined(u: User): Player
  {
    Player(u, false, Unanswered, 0)
  }

  /** True when `ps[i]` is the first entry whose user has identity `id`. */
  predicate IsFirstWithId(ps: seq<Player>, i: int, id: string)
  {
    0 <= i < |ps| && ps[i].user.id == id && forall j :: 0 <= j < i ==> ps[j].user.id != id
  }

  /** The position of the player that `players.find(p => p.user.id === id)`
      returns, or None when no user on the roster has that identity. */
  function FindPlayer(ps: seq<Player>, id: string): (r: Option<nat>)
    ensures r.None? <==> forall i :: 0 <= i < |ps| ==> ps[i].user.id != id
    ensures r.Some? ==> IsFirstWithId(ps, r.value, id)
  {
    if ps == [] then None
    else if ps[0].user.id == id then Some(0)
    else match FindPlayer(ps[1..], id)
      case None => None
      case Some(k) => Some(k + 1)
  }

  /** The roster after the end-of-round award: every player whose answer is
      the correct index gains the fixed award, nobody else changes. */
  function Awarded(ps: seq<Player>, correct: int): (r: seq<Player>)
    ensures |r| == |ps|
    ensures forall i :: 0 <= i < |ps| ==>
      r[i] == if ps[i].answer == correct then ps[i].(points := ps[i].points + PointsPerCorrectAnswer) else ps[i]
    ensures forall i :: 0 <= i < |ps| ==> r[i].points >= ps[i].points
  {
    if ps == [] then []
    else
      var p := ps[0];
      [if p.answer == correct then p.(points := p.points + PointsPerCorrectAnswer) else p]
        + Awarded(ps[1..], correct)
  }

  /** The roster after `submitAnswer(id, a)`: the first player with identity
      `id` now holds answer `a`; every other field and player is unchanged. */
  function WithAnswer(ps: seq<Player>, id: string, a: int): (r: seq<Player>)
    ensures |r| == |ps|
    ensures forall i :: 0 <= i < |ps| ==>
      r[i] == if IsFirstWithId(ps, i, id) then ps[i].(answer := a) else ps[i]
  {
    match FindPlayer(ps, id)
    case None => ps
    case Some(k) => ps[k := ps[k].(answer := a)]
  }

  /** The roster after `players.filter(p => p.user.id !== id)`. */
  function Without(ps: seq<Player>, id: string): (r: seq<Player>)
    ensures forall i :: 0 <= i < |r| ==> r[i] in ps && r[i].user.id != id
    ensures forall i :: 0 <= i < |ps| && ps[i].user.id != id ==> ps[i] in r
    ensures |r| <= |ps|
  {
    if ps == [] then []
    else (if ps[0].user.id == id then [] else [ps[0]]) + Without(ps[1..], id)
  }

  /** The number of roster entries whose user has identity `id`. */
  function CountWithId(ps: seq<Player>, id: string): nat
  {
    if ps == [] then 0 else (if ps[0].user.id == id then 1 else 0) + CountWithId(ps[1..], id)
  }

  /** The number of players whose answer is `correct`. */
  function CountCorrect(ps: seq<Player>, correct: int): nat
  {
    if ps == [] then 0 else (if ps[0].answer == correct then 1 else 0) + CountCorrect(ps[1..], correct)
  }

  /** The sum of all players' points. */
  function TotalPoints(ps: seq<Player>): int
  {
    if ps == [] then 0 else ps[0].points + TotalPoints(ps[1..])
  }

  /** One round's award raises the roster's total by exactly the fixed award
      per correct answer. */
  lemma {:induction false} AwardedTotal(ps: seq<Player>, correct: int)
    ensures TotalPoints(Awarded(ps, correct))
            == TotalPoints(ps) + PointsPerCorrectAnswer * CountCorrect(ps, correct)
  {
    if ps != [] {
      AwardedTotal(ps[1..], correct);
      assert Awarded(ps, correct)[1..] == Awarded(ps[1..], correct);
    }
  }

  /** The unanswered sentinel never matches a correct index (which is never
      negative), so a round nobody answered changes nobody's points. */
  lemma UnansweredScoresNothing(ps: seq<Player>, correct: int)
    requires 0 <= correct
    requires forall i :: 0 <= i < |ps| ==> ps[i].answer == Unanswered
    ensures Awarded(ps, correct) == ps
  {
  }

  /** A second submission by the same user overwrites the first. */
  lemma SecondAnswerWins(ps: seq<Player>, id: string, a: int, b: int)
    ensures WithAnswer(WithAnswer(ps, id, a), id, b) == WithAnswer(ps, id, b)
  {
  }

  /** Removing an identity nobody on the roster has leaves the roster as it was. */
  lemma {:induction false} WithoutAbsent(ps: seq<Player>, id: string)
    requires FindPlayer(ps, id).None?
    ensures Without(ps, id) == ps
  {
    if ps != [] {
      WithoutAbsent(ps[1..], id);
    }
  }

  /** Filtering keeps the original order: it acts on each part of a roster
      separately. */
  lemma {:induction false} WithoutAppend(a: seq<Player>, b: seq<Player>, id: string)
    ensures Without(a + b, id) == Without(a, id) + Without(b, id)
  {
    if a == [] {
      assert a + b == b;
    } else {
      assert (a + b)[1..] == a[1..] + b;
      WithoutAppend(a[1..], b, id);
    }
  }

  /** Filtering drops exactly the entries with the removed identity. */
  lemma {:induction false} WithoutLength(ps: seq<Player>, id: string)
    ensures |Without(ps, id)| == |ps| - CountWithId(ps, id)
  {
    if ps != [] {
      WithoutLength(ps[1..], id);
    }
  }

  /** Removing twice is removing once. */
  lemma WithoutIdempotent(ps: seq<Player>, id: string)
    ensures Without(Without(ps, id), id) == Without(ps, id)
  {
    var r := Without(ps, id);
    assert forall i :: 0 <= i < |r| ==> r[i] in r;
    WithoutAbsent(r, id);
  }

  /** Removing a user right after they joined restores the earlier roster,
      filtered by their identity. */
  lemma RemoveUndoesJoin(ps: seq<Player>, u: User)
    ensures Without(ps + [Joined(u)], u.id) == Without(ps, u.id)
  {
    WithoutAppend(ps, [Joined(u)], u.id);
    assert [Joined(u)][1..] == [];
  }
}
