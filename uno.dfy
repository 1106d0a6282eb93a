/**
 * A game of UNO (src/model/uno.ts): the players' cumulative scores, the
 * rounds played so far with the current one last, and a game winner that
 * is latched once someone reaches the target score.
 */
module Uno {
  import opened Results
  import opened Cards
  import opened Deck
  import opened Rules
  import opened HandEngine

  /** The errors the game throws; a round that cannot be set up passes its own error on. */
  datatype GameError =
    | TooFewPlayers
    | NonPositiveTarget
    | HandSetup(cause: HandError)
    | PlayerIndexOutOfBounds

  /** The target score when none is given. */
  const DefaultTarget := 500

  /**
   * The first player, in seat order, whose score reaches the target, if
   * any: the scan of `winner` (src/model/uno.ts:68-75).
   */
  function FirstReaching(scores: seq<int>, target: int): (r: Option<nat>)
    ensures r.Some? ==> r.value < |scores| && scores[r.value] >= target
    ensures r.Some? ==> forall j :: 0 <= j < r.value ==> scores[j] < target
    ensures r.None? ==> forall j :: 0 <= j < |scores| ==> scores[j] < target
  {
    if scores == [] then None
    else if scores[0] >= target then Some(0)
    else
      match FirstReaching(scores[1..], target)
      case None => None
      case Some(i) => Some(i + 1)
  }

  class Game {
    const players: seq<string>
    const targetScore: int
    const shuffler: Shuffler
    const cardsPerPlayer: int
    const dealer: int
    const reshuffleLimit: nat
    var scores: seq<int>
    var hands: seq<Hand>
    var currentHandIndex: int
    var ended: bool
    var gameWinner: Option<int>

    /**
     * The game's invariant: at least two players and a positive target,
     * one score per player
     * and none negative, at least one round with the current one last, and
     * a latched winner only once the game has ended, with a score that
     * reached the target.
     */
    ghost predicate Valid()
      reads this
    {
      && |players| >= 2
      && targetScore > 0
      && |scores| == |players|
      && (forall i :: 0 <= i < |scores| ==> scores[i] >= 0)
      && |hands| >= 1
      && currentHandIndex == |hands| - 1
      && (forall h :: h in hands ==> h.players == players)
      && (gameWinner.Some? ==> ended && 0 <= gameWinner.value < |players| && scores[gameWinner.value] >= targetScore)
    }

    /** A game whose first round has just been set up: all scores 0, not ended. */
    constructor Init(players: seq<string>, targetScore: int, shuffler: Shuffler, cardsPerPlayer: int,
                     dealer: int, reshuffleLimit: nat, first: Hand)
      ensures this.players == players && this.targetScore == targetScore && this.shuffler == shuffler
      ensures this.cardsPerPlayer == cardsPerPlayer && this.dealer == dealer && this.reshuffleLimit == reshuffleLimit
      ensures scores == seq(|players|, _ => 0) && hands == [first] && currentHandIndex == 0
      ensures !ended && gameWinner == None
    {
      this.players := players;
      this.targetScore := targetScore;
      this.shuffler := shuffler;
      this.cardsPerPlayer := cardsPerPlayer;
      this.dealer := dealer;
      this.reshuffleLimit := reshuffleLimit;
      scores := seq(|players|, _ => 0);
      hands := [first];
      currentHandIndex := 0;
      ended := false;
      gameWinner := None;
    }

    /** currentHand: the round started last (src/model/uno.ts:59-61). */
    function CurrentHand(): (h: Hand)
      reads this
      requires Valid()
      ensures h in hands && h == hands[|hands| - 1]
      ensures h.players == players
    {
      hands[currentHandIndex]
    }

    /** score: a player's cumulative score; undefined outside the table (src/model/uno.ts:79-81). */
    function Score(i: int): (s: Option<int>)
      reads this
      requires Valid()
      ensures s.Some? <==> 0 <= i < |players|
      ensures s.Some? ==> s.value == scores[i] && s.value >= 0
    {
      if 0 <= i < |scores| then Some(scores[i]) else None
    }

    /** player: the name at a seat, or an error outside the table (src/model/uno.ts:83-88). */
    function Player(i: int): (r: Result<string, GameError>)
      reads this
      ensures r.Success? <==> 0 <= i < |players|
      ensures r.Success? ==> r.value == players[i]
      ensures r.Failure? ==> r.error == GameError.PlayerIndexOutOfBounds
    {
      if i < 0 || i >= |players| then Failure(GameError.PlayerIndexOutOfBounds) else Success(players[i])
    }

    /** endGame: latches the end of the game; the winner stays what it was (src/model/uno.ts:55-57). */
    method EndGame()
      requires Valid()
      modifies this`ended
      ensures Valid()
      ensures ended
    {
      ended := true;
    }

    /**
     * winner (src/model/uno.ts:63-77): once the game has ended, the latched
     * winner, possibly none; otherwise the first player whose score reached
     * the target, which then ends the game and is latched.
     */
    method Winner() returns (w: Option<int>)
      requires Valid()
      modifies this`ended, this`gameWinner
      ensures Valid()
      ensures old(ended) ==> w == old(gameWinner) && ended && gameWinner == old(gameWinner)
      ensures !old(ended) ==>
        var first := FirstReaching(scores, targetScore);
        && w == (if first.Some? then Some(first.value as int) else None)
        && gameWinner == w
        && (ended <==> w.Some?)
    {
      if ended {
        return gameWinner;
      }
      var i := 0;
      while i < |players|
        invariant 0 <= i <= |players|
        invariant forall j :: 0 <= j < i ==> scores[j] < targetScore
        invariant !ended && gameWinner == None
      {
        if scores[i] >= targetScore {
          gameWinner := Some(i);
          ended := true;
          break;
        }
        i := i + 1;
      }
      return gameWinner;
    }

    /**
     * startNewHand (src/model/uno.ts:48-53): a new round with the game's
     * settings becomes the current one; a round that cannot be set up
     * throws its error and leaves the rounds as they were.
     */
    method StartNewHand() returns (r: Outcome<GameError>)
      requires Valid()
      modifies this`hands, this`currentHandIndex
      ensures Valid()
      ensures var e := SetupError(players, dealer, shuffler, cardsPerPlayer, reshuffleLimit);
        (r.Fail? <==> e.Some?) && (r.Fail? ==> r.error.HandSetup? && e == Some(r.error.cause))
      ensures r.Fail? ==> r.error.HandSetup? && hands == old(hands)
      ensures r.Pass? ==> |hands| == |old(hands)| + 1 && hands[..|old(hands)|] == old(hands)
      ensures r.Pass? ==> var h := hands[|hands| - 1]; fresh(h) && h.Valid() && !h.ended && h.dealer == dealer
    {
      var h := NewHand(players, dealer, shuffler, cardsPerPlayer, reshuffleLimit);
      if h.Failure? {
        return Fail(HandSetup(h.error));
      }
      hands := hands + [h.value];
      currentHandIndex := |hands| - 1;
      return Pass;
    }

    /**
     * The scoring half of updateScores (src/model/uno.ts:95-101): when the
     * current round has a winner and a score, that score is added to the
     * winner's total and no other total changes. Totals never decrease.
     * The round is an object of its own whose fields the game does not
     * own, so `Valid()` of the game says nothing of it: the caller states
     * that the current round is valid.
     */
    method AddHandScore()
      requires Valid() && CurrentHand().Valid()
      modifies this`scores
      ensures Valid()
      ensures var h := old(hands[|hands| - 1]);
        scores == if old(h.ended)
                  then old(scores[h.winningPlayer.value := scores[h.winningPlayer.value] + HandsScore(h.hands)])
                  else old(scores)
      ensures forall i :: 0 <= i < |scores| ==> old(scores)[i] <= scores[i]
    {
      var hand := hands[currentHandIndex];
      var winner := hand.Winner();
      var handScore := hand.Score();
      if winner.Some? && handScore.Some? {
        scores := scores[winner.value := scores[winner.value] + handScore.value];
      }
    }

    /**
     * The second half of updateScores (src/model/uno.ts:103-105): unless the
     * game has ended, a new round starts; one that cannot be set up throws.
     */
    method ContinueGame() returns (r: Outcome<GameError>)
      requires Valid()
      modifies this`hands, this`currentHandIndex
      ensures Valid()
      ensures old(ended) ==> r.Pass? && hands == old(hands)
      ensures r.Fail? ==> r.error.HandSetup? && hands == old(hands)
      ensures !old(ended) ==> (r.Fail? <==> SetupError(players, dealer, shuffler, cardsPerPlayer, reshuffleLimit).Some?)
      ensures !old(ended) && r.Pass? ==> |hands| == |old(hands)| + 1 && hands[..|old(hands)|] == old(hands)
      ensures !old(ended) && r.Pass? ==> fresh(hands[|hands| - 1]) && !hands[|hands| - 1].ended
    {
      if ended {
        return Pass;
      }
      r := StartNewHand();
    }

    /**
     * updateScores (src/model/uno.ts:94-105): the current round's score is
     * added to its winner's total, then a new round starts unless the game
     * has ended; a new round that cannot be set up throws. As for
     * `AddHandScore`, the current round's validity is the caller's to state.
     */
    method UpdateScores() returns (r: Outcome<GameError>)
      requires Valid() && CurrentHand().Valid()
      modifies this`scores, this`hands, this`currentHandIndex
      ensures Valid()
      ensures var h := old(hands[|hands| - 1]);
        scores == if old(h.ended)
                  then old(scores[h.winningPlayer.value := scores[h.winningPlayer.value] + HandsScore(h.hands)])
                  else old(scores)
      ensures forall i :: 0 <= i < |scores| ==> old(scores)[i] <= scores[i]
      ensures old(ended) ==> r.Pass? && hands == old(hands)
      ensures r.Fail? ==> r.error.HandSetup? && hands == old(hands)
      ensures !old(ended) ==> (r.Fail? <==> SetupError(players, dealer, shuffler, cardsPerPlayer, reshuffleLimit).Some?)
      ensures !old(ended) && r.Pass? ==> |hands| == |old(hands)| + 1 && hands[..|old(hands)|] == old(hands)
      ensures !old(ended) && r.Pass? ==> fresh(hands[|hands| - 1]) && !hands[|hands| - 1].ended
    {
      AddHandScore();
      r := ContinueGame();
    }
  }

  /**
   * createGame (src/model/uno.ts:23-91): at least two players, a target
   * score that defaults to 500 and must be positive, and a first round set
   * up with the given dealer and cards per player (7 when none is given);
   * a round that cannot be set up makes the game fail with its error.
   */
  method CreateGame(players: seq<string>, targetScore: Option<int>, shuffler: Shuffler,
                    cardsPerPlayer: Option<int>, dealer: int, reshuffleLimit: nat)
    returns (r: Result<Game, GameError>)
    ensures |players| < 2 ==> r == Failure(TooFewPlayers)
    ensures var target := if targetScore.Some? then targetScore.value else DefaultTarget;
      |players| >= 2 && target <= 0 ==> r == Failure(NonPositiveTarget)
    ensures var target := if targetScore.Some? then targetScore.value else DefaultTarget;
      var k := CardsPerPlayerOr(cardsPerPlayer);
      var e := SetupError(players, dealer, shuffler, k, reshuffleLimit);
      |players| >= 2 && target > 0 ==>
        && (r.Success? <==> e.None?)
        && (e.Some? ==> r == Failure(HandSetup(e.value)))
        && (r.Success? ==> r.value.targetScore == target && r.value.cardsPerPlayer == k)
    ensures r.Success? ==>
      && fresh(r.value) && r.value.Valid()
      && r.value.players == players && r.value.dealer == dealer
      && r.value.scores == seq(|players|, _ => 0)
      && |r.value.hands| == 1 && fresh(r.value.hands[0]) && r.value.hands[0].Valid()
      && !r.value.ended && r.value.gameWinner == None
  {
    if |players| < 2 {
      return Failure(TooFewPlayers);
    }
    var target := if targetScore.Some? then targetScore.value else DefaultTarget;
    if target <= 0 {
      return Failure(NonPositiveTarget);
    }
    var k := CardsPerPlayerOr(cardsPerPlayer);
    var first := NewHand(players, dealer, shuffler, k, reshuffleLimit);
    if first.Failure? {
      return Failure(HandSetup(first.error));
    }
    var game := new Game.Init(players, target, shuffler, k, dealer, reshuffleLimit, first.value);
    return Success(game);
  }

}
