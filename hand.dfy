/**
 * One round of UNO (src/model/hand.ts): the piles, the players' hands, the
 * turn and direction, the round's end and winner, and the UNO declare and
 * accuse protocol.
 */
module HandEngine {
  import opened Results
  import opened Cards
  import opened Deck
  import opened Rules
  import opened Opening

  /** A player's last action, kept for the UNO accusation window (null, "play", "draw"). */
  datatype LastAction = NoAction | Played | Drew

  /** The errors the round throws. */
  datatype HandError =
    | InvalidPlayerCount
    | DealerOutOfBounds
    | ReshuffleLimit
    | RoundFinished
    | InvalidCardIndex
    | IllegalPlay
    | PlayerIndexOutOfBounds
    | InvalidAccused
    | InvalidAccuser

  /**
   * The number of cards in play: the size of the standard deck, which
   * `Deck.StandardDeckSize` proves to be `|StandardDeck()| == 108`. The
   * number is written out so that a round's invariant does not unroll the
   * deck.
   */
  const DeckSize := 108

  // ---------------------------------------------------------------------
  // Setup
  // ---------------------------------------------------------------------

  /**
   * The round createHand sets up (src/model/hand.ts:70-113): the hands dealt
   * from the shuffled standard deck, a discard pile holding the flipped
   * opening card, the rest as the draw pile, and the first turn set by the
   * opening card; a DRAW makes that first player take up to two cards from
   * the draw pile. None when the reshuffle bound is reached.
   */
  function SetupOf(n: nat, dealer: int, shuffler: Shuffler, k: int, fuel: nat): (r: Option<Opened>)
    requires 2 <= n && 0 <= dealer < n
    ensures r.Some? ==> |r.value.hands| == n && 0 <= r.value.first < n
  {
    SetupFrom(shuffler(StandardDeck()), n, dealer, shuffler, k, fuel)
  }

  /** SetupOf from a given shuffled deck. */
  function SetupFrom(deck: seq<Card>, n: nat, dealer: int, shuffler: Shuffler, k: int, fuel: nat): (r: Option<Opened>)
    requires 2 <= n && 0 <= dealer < n
    ensures r.Some? ==> |r.value.hands| == n && 0 <= r.value.first < n
  {
    var dealt := DealHands(deck, n, k);
    var flip := OpeningFlip(dealt.1, shuffler, fuel);
    if flip.None? then None else Some(ApplyOpening(dealt.0, flip.value.0, flip.value.1, dealer, n))
  }

  /**
   * The error createHand throws, if any: a player count outside 2..10, a
   * dealer outside the table (src/model/hand.ts:51-56), or the reshuffle
   * bound.
   */
  function SetupError(players: seq<string>, dealer: int, shuffler: Shuffler, k: int, fuel: nat): (e: Option<HandError>)
    ensures e == Some(InvalidPlayerCount) <==> !(2 <= |players| <= 10)
    ensures e == Some(DealerOutOfBounds) <==> 2 <= |players| <= 10 && !(0 <= dealer < |players|)
    ensures e.None? <==> 2 <= |players| <= 10 && 0 <= dealer < |players| && SetupOf(|players|, dealer, shuffler, k, fuel).Some?
  {
    if !(2 <= |players| <= 10) then Some(InvalidPlayerCount)
    else if !(0 <= dealer < |players|) then Some(DealerOutOfBounds)
    else if SetupOf(|players|, dealer, shuffler, k, fuel).None? then Some(ReshuffleLimit)
    else None
  }

  /**
   * After setup the discard pile holds at most one card and it is not wild,
   * and the first turn is the one the opening card calls for.
   */
  lemma SetupOpening(deck: seq<Card>, n: nat, dealer: int, shuffler: Shuffler, k: int, fuel: nat)
    requires 2 <= n && 0 <= dealer < n
    ensures var r := SetupFrom(deck, n, dealer, shuffler, k, fuel);
      r.Some? ==> |r.value.discard| <= 1 && forall c :: c in r.value.discard ==> !IsWild(c)
    ensures var r := SetupFrom(deck, n, dealer, shuffler, k, fuel);
      r.Some? ==> FirstTurnFits(r.value, dealer, n)
  {
    var dealt := DealHands(deck, n, k);
    OpeningFlipProperties(dealt.1, shuffler, fuel);
    var flip := OpeningFlip(dealt.1, shuffler, fuel);
    if flip.Some? {
      ApplyOpeningEffect(dealt.0, flip.value.0, flip.value.1, dealer, n);
    }
  }

  /** With a shuffler that only permutes, setup only moves the cards of the deck it starts from. */
  lemma SetupFromConserves(deck: seq<Card>, n: nat, dealer: int, shuffler: Shuffler, k: int, fuel: nat)
    requires 2 <= n && 0 <= dealer < n
    requires IsShuffler(shuffler)
    ensures var r := SetupFrom(deck, n, dealer, shuffler, k, fuel);
      r.Some? ==> multiset(Flatten(r.value.hands)) + multiset(r.value.draw) + multiset(r.value.discard) == multiset(deck)
  {
    var dealt := DealHands(deck, n, k);
    var flip := OpeningFlip(dealt.1, shuffler, fuel);
    if flip.Some? {
      DealConserves(deck, n, k);
      OpeningFlipProperties(dealt.1, shuffler, fuel);
      ApplyOpeningConserves(dealt.0, flip.value.0, flip.value.1, dealer, n);
      assert multiset(Flatten(dealt.0)) + multiset(dealt.1) == multiset(deck);
    }
  }

  /**
   * With a shuffler that only permutes, setup only moves the 108 standard
   * cards between the hands and the two piles.
   */
  lemma SetupConserves(n: nat, dealer: int, shuffler: Shuffler, k: int, fuel: nat)
    requires 2 <= n && 0 <= dealer < n
    requires IsShuffler(shuffler)
    ensures var r := SetupOf(n, dealer, shuffler, k, fuel);
      r.Some? ==>
        multiset(Flatten(r.value.hands)) + multiset(r.value.draw) + multiset(r.value.discard) == multiset(StandardDeck())
    ensures var r := SetupOf(n, dealer, shuffler, k, fuel);
      r.Some? ==> TotalCards(r.value.hands) + |r.value.draw| + |r.value.discard| == DeckSize
  {
    var deck := shuffler(StandardDeck());
    SetupFromConserves(deck, n, dealer, shuffler, k, fuel);
    SetupFromSize(deck, n, dealer, shuffler, k, fuel);
    StandardDeckSize();
    ShufflerKeepsSize(shuffler, StandardDeck());
  }

  /** With a shuffler that only permutes, setup leaves as many cards in play as the deck held. */
  lemma SetupFromSize(deck: seq<Card>, n: nat, dealer: int, shuffler: Shuffler, k: int, fuel: nat)
    requires 2 <= n && 0 <= dealer < n
    requires IsShuffler(shuffler)
    ensures var r := SetupFrom(deck, n, dealer, shuffler, k, fuel);
      r.Some? ==> TotalCards(r.value.hands) + |r.value.draw| + |r.value.discard| == |deck|
  {
    var r := SetupFrom(deck, n, dealer, shuffler, k, fuel);
    SetupFromConserves(deck, n, dealer, shuffler, k, fuel);
    if r.Some? {
      HandsScoreFlatten(r.value.hands);
      assert |multiset(Flatten(r.value.hands)) + multiset(r.value.draw) + multiset(r.value.discard)| == |multiset(deck)|;
    }
  }

  class Hand {
    const players: seq<string>
    const dealer: int
    const shuffler: Shuffler
    const drawPile: Pile
    const discardPile: Pile
    var hands: seq<seq<Card>>
    var currentTurn: int
    var previousTurn: int
    var direction: int
    var ended: bool
    var winningPlayer: Option<int>
    var lastActions: seq<LastAction>
    var unoCalled: set<int>

    /** Cards in the players' hands and in both piles. */
    ghost function CardCount(): nat
      reads this, drawPile, discardPile
    {
      TotalCards(hands) + |drawPile.cards| + |discardPile.cards|
    }

    /**
     * The round's invariant: indices in range, a direction of 1 or -1, a
     * winner exactly when the round has ended and with an empty hand, and,
     * when the shuffler only permutes, all 108 cards in play.
     */
    ghost predicate Valid()
      reads this, drawPile, discardPile
    {
      && 2 <= |players| <= 10
      && 0 <= dealer < |players|
      && drawPile != discardPile
      && |hands| == |players|
      && |lastActions| == |players|
      && 0 <= currentTurn < |players|
      && 0 <= previousTurn < |players|
      && IsDirection(direction)
      && drawPile.Valid()
      && (ended <==> winningPlayer.Some?)
      && (winningPlayer.Some? ==> 0 <= winningPlayer.value < |players| && hands[winningPlayer.value] == [])
      && (forall i :: i in unoCalled ==> 0 <= i < |players|)
      && (IsShuffler(shuffler) ==> CardCount() == DeckSize)
    }

    /** A round as it stands after setup: direction 1, no actions, no UNO calls. */
    constructor Init(players: seq<string>, dealer: int, shuffler: Shuffler, drawPile: Pile, discardPile: Pile,
                     hands: seq<seq<Card>>, currentTurn: int, previousTurn: int)
      ensures this.players == players && this.dealer == dealer && this.shuffler == shuffler
      ensures this.drawPile == drawPile && this.discardPile == discardPile
      ensures this.hands == hands && this.currentTurn == currentTurn && this.previousTurn == previousTurn
      ensures direction == 1 && !ended && winningPlayer == None && unoCalled == {}
      ensures lastActions == seq(|players|, _ => NoAction)
    {
      this.players := players;
      this.dealer := dealer;
      this.shuffler := shuffler;
      this.drawPile := drawPile;
      this.discardPile := discardPile;
      this.hands := hands;
      this.currentTurn := currentTurn;
      this.previousTurn := previousTurn;
      direction := 1;
      ended := false;
      winningPlayer := None;
      lastActions := seq(|players|, _ => NoAction);
      unoCalled := {};
    }

    // -------------------------------------------------------------------
    // Queries
    // -------------------------------------------------------------------

    /** hasEnded: the round is over exactly when it has a winner. */
    function HasEnded(): (b: bool)
      reads this, drawPile, discardPile
      requires Valid()
      ensures b <==> winningPlayer.Some?
    {
      ended
    }

    /** winner: undefined before the round ends, then a player whose hand is empty. */
    function Winner(): (w: Option<int>)
      reads this, drawPile, discardPile
      requires Valid()
      ensures w.Some? <==> ended
      ensures w.Some? ==> 0 <= w.value < |players| && hands[w.value] == []
    {
      if ended then winningPlayer else None
    }

    /** playerInTurn: always a seat at the table. */
    function PlayerInTurn(): (t: int)
      reads this, drawPile, discardPile
      requires Valid()
      ensures 0 <= t < |players|
    {
      currentTurn
    }

    /** player: the name at a seat; an index outside the table throws. */
    function Player(i: int): (r: Result<string, HandError>)
      reads this
      ensures r.Success? <==> 0 <= i < |players|
      ensures r.Success? ==> r.value == players[i]
      ensures r.Failure? ==> r.error == PlayerIndexOutOfBounds
    {
      if i < 0 || i >= |players| then Failure(PlayerIndexOutOfBounds) else Success(players[i])
    }

    /** playerHand: the cards at a seat; an index outside the hands throws. */
    function PlayerHand(i: int): (r: Result<seq<Card>, HandError>)
      reads this
      ensures r.Success? <==> 0 <= i < |hands|
      ensures r.Success? ==> r.value == hands[i]
      ensures r.Failure? ==> r.error == PlayerIndexOutOfBounds
    {
      if i < 0 || i >= |hands| then Failure(PlayerIndexOutOfBounds) else Success(hands[i])
    }

    /** lastAction: the last action at a seat; an index outside the hands throws. */
    function LastActionOf(i: int): (r: Result<LastAction, HandError>)
      reads this
      requires |lastActions| == |hands|
      ensures r.Success? <==> 0 <= i < |hands|
      ensures r.Success? ==> r.value == lastActions[i]
      ensures r.Failure? ==> r.error == PlayerIndexOutOfBounds
    {
      if i < 0 || i >= |hands| then Failure(PlayerIndexOutOfBounds) else Success(lastActions[i])
    }

    /**
     * canPlay: false once the round has ended, otherwise whether the current
     * player may play the card at `idx` on the discard top. The source
     * dereferences an undefined card for an index past the hand when the
     * discard pile has a top, so that case is excluded.
     */
    method CanPlay(idx: int) returns (b: bool)
      requires Valid()
      requires ended || idx < |hands[currentTurn]| || discardPile.Top().None?
      ensures b == (!ended && Playable(hands[currentTurn], idx, discardPile.Top()))
    {
      if ended {
        return false;
      }
      if idx < 0 {
        return false;
      }
      var hand := hands[currentTurn];
      var top := discardPile.Top();
      if top.None? {
        return true;
      }
      var card := hand[idx];
      if card.WildDraw? {
        var i := 0;
        while i < |hand|
          invariant 0 <= i <= |hand|
          invariant forall j :: 0 <= j < i ==> !(ColorOf(hand[j]).Some? && ColorOf(hand[j]) == ColorOf(top.value))
        {
          if ColorOf(top.value) == ColorOf(hand[i]) && ColorOf(hand[i]).Some? {
            return false;
          }
          i := i + 1;
        }
      }
      b := || ColorOf(card) == ColorOf(top.value)
           || (NumberOf(card) == NumberOf(top.value) && NumberOf(card).Some?)
           || (KindOf(card) == KindOf(top.value) && KindOf(card) != NumberedKind)
           || card.Wild?
           || card.WildDraw?;
    }

    /** canPlayAny: whether the round is on and some card of the current player is playable. */
    method CanPlayAny() returns (b: bool)
      requires Valid()
      ensures b == (!ended && exists i :: 0 <= i < |hands[currentTurn]| && Playable(hands[currentTurn], i, discardPile.Top()))
    {
      if ended {
        return false;
      }
      var hand := hands[currentTurn];
      var i := 0;
      while i < |hand|
        invariant 0 <= i <= |hand|
        invariant forall j :: 0 <= j < i ==> !Playable(hand, j, discardPile.Top())
      {
        var ok := CanPlay(i);
        if ok {
          return true;
        }
        i := i + 1;
      }
      return false;
    }

    /**
     * score: undefined before the round ends, then the points of every
     * card left in every player's hand.
     */
    method Score() returns (s: Option<int>)
      requires Valid()
      ensures s == if ended then Some(HandsScore(hands)) else None
    {
      if !ended {
        return None;
      }
      var total := 0;
      var i := 0;
      while i < |players|
        invariant 0 <= i <= |players|
        invariant total == HandsScore(hands[..i])
      {
        var j := 0;
        while j < |hands[i]|
          invariant 0 <= j <= |hands[i]|
          invariant total == HandsScore(hands[..i]) + CardsScore(hands[i][..j])
        {
          var card := hands[i][j];
          assert hands[i][..j + 1][..j] == hands[i][..j];
          if card.Skip? || card.Reverse? || card.Draw? {
            total := total + 20;
          } else if card.Numbered? {
            total := total + card.number;
          } else if card.Wild? || card.WildDraw? {
            total := total + 50;
          }
          j := j + 1;
        }
        assert hands[i][..j] == hands[i];
        assert hands[..i + 1][..i] == hands[..i];
        i := i + 1;
      }
      assert hands[..i] == hands;
      return Some(total);
    }

    // -------------------------------------------------------------------
    // Drawing
    // -------------------------------------------------------------------

    /**
     * One card for the player at `target`: the front of the draw pile or,
     * when the draw pile is empty, the front of the reclaimed draw pile
     * (src/model/hand.ts:300-317, 364-381). A discard pile popped while empty
     * leaves the source holding `[undefined]`, which is no card here.
     */
    method TakeCard(target: int) returns (c: Option<Card>)
      requires 0 <= target < |hands| && drawPile != discardPile && drawPile.Valid()
      modifies this`hands, drawPile, discardPile
      ensures (c, Piles(drawPile.cards, discardPile.cards))
        == DrawOne(Piles(old(drawPile.cards), old(discardPile.cards)), shuffler)
      ensures hands == old(hands)[target := old(hands[target]) + Drawn(c)]
      ensures drawPile.Valid()
      ensures discardPile.size == if old(drawPile.cards) == [] then 1 else old(discardPile.size)
    {
      c := drawPile.Deal();
      if c.Some? {
        hands := hands[target := hands[target] + [c.value]];
        return;
      }
      ghost var reclaimed := Reclaim(Piles(drawPile.cards, discardPile.cards), shuffler);
      var discarded := discardPile.cards;
      var newStart: Option<Card> := None;
      if discarded != [] {
        newStart := Some(discarded[|discarded| - 1]);
        discardPile.cards := discarded[..|discarded| - 1];
      }
      discardPile.Shuffle(shuffler);
      drawPile.cards := discardPile.cards;
      drawPile.size := |drawPile.cards|;
      discardPile.cards := Drawn(newStart);
      discardPile.size := 1;
      assert Piles(drawPile.cards, discardPile.cards) == reclaimed;
      c := drawPile.Deal();
      if c.Some? {
        hands := hands[target := hands[target] + [c.value]];
      } else {
        assert hands[target] + Drawn(c) == hands[target];
      }
    }

    /** Cards added to a hand after earlier ones leave it holding both, in order. */
    static lemma HandGrows(hs: seq<seq<Card>>, target: int, start: seq<Card>, cards: seq<Card>, more: seq<Card>)
      requires 0 <= target < |hs| && hs[target] == start + cards
      ensures hs[target := hs[target] + more] == hs[target := start + (cards + more)]
    {
      assert start + cards + more == start + (cards + more);
    }

    /** Adding drawn cards to a hand keeps the cards in play. */
    lemma TakeCardCount(oldHands: seq<seq<Card>>, target: int, p: Piles)
      requires 0 <= target < |oldHands| && IsShuffler(shuffler)
      ensures var r := DrawOne(p, shuffler);
        TotalCards(oldHands[target := oldHands[target] + Drawn(r.0)]) + |r.1.draw| + |r.1.discard|
          == TotalCards(oldHands) + |p.draw| + |p.discard|
    {
      var r := DrawOne(p, shuffler);
      TotalCardsUpdate(oldHands, target, oldHands[target] + Drawn(r.0));
      DrawOneSize(p, shuffler);
    }

    /** `k` successive single draws for the player at `target` (src/model/hand.ts:363-382). */
    method TakeCards(target: int, k: nat) returns (cards: seq<Card>)
      requires 0 <= target < |hands| && drawPile != discardPile && drawPile.Valid()
      modifies this`hands, drawPile, discardPile
      ensures (cards, Piles(drawPile.cards, discardPile.cards))
        == DrawMany(Piles(old(drawPile.cards), old(discardPile.cards)), shuffler, k)
      ensures hands == old(hands)[target := old(hands[target]) + cards]
      ensures drawPile.Valid()
      ensures discardPile.size
        == if DrawManyReclaims(Piles(old(drawPile.cards), old(discardPile.cards)), shuffler, k) then 1
           else old(discardPile.size)
    {
      ghost var start := Piles(drawPile.cards, discardPile.cards);
      cards := [];
      assert old(hands[target]) + cards == old(hands[target]);
      var i := 0;
      while i < k
        invariant 0 <= i <= k
        invariant drawPile.Valid()
        invariant (cards, Piles(drawPile.cards, discardPile.cards)) == DrawMany(start, shuffler, i)
        invariant hands == old(hands)[target := old(hands[target]) + cards]
        invariant discardPile.size == if DrawManyReclaims(start, shuffler, i) then 1 else old(discardPile.size)
      {
        ghost var now := Piles(drawPile.cards, discardPile.cards);
        ghost var before := hands;
        assert DrawManyReclaims(start, shuffler, i + 1) == (DrawManyReclaims(start, shuffler, i) || now.draw == []);
        var c := TakeCard(target);
        DrawManyStep(start, shuffler, i);
        HandGrows(before, target, old(hands[target]), cards, Drawn(c));
        cards := cards + Drawn(c);
        i := i + 1;
      }
    }

    /**
     * draw: throws once the round has ended. Otherwise the current player
     * takes one card (reclaiming the discard pile when the draw pile is
     * empty), is recorded as having drawn, and keeps the turn only when the
     * last card of their hand is playable.
     */
    method Draw() returns (r: Outcome<HandError>)
      requires Valid()
      modifies this, drawPile, discardPile
      ensures Valid()
      ensures old(ended) ==> r == Fail(RoundFinished)
      ensures old(ended) ==>
        && hands == old(hands) && currentTurn == old(currentTurn) && previousTurn == old(previousTurn)
        && lastActions == old(lastActions)
        && drawPile.cards == old(drawPile.cards) && discardPile.cards == old(discardPile.cards)
        && discardPile.size == old(discardPile.size)
      ensures !old(ended) ==> r == Pass
      ensures !old(ended) ==>
        var cur := old(currentTurn);
        var d := DrawOne(Piles(old(drawPile.cards), old(discardPile.cards)), shuffler);
        && hands == old(hands)[cur := old(hands[cur]) + Drawn(d.0)]
        && Piles(drawPile.cards, discardPile.cards) == d.1
        && previousTurn == cur
        && lastActions == old(lastActions)[old(previousTurn) := NoAction][cur := Drew]
        && currentTurn == (if Playable(hands[cur], |hands[cur]| - 1, discardPile.Top()) then cur
                           else Seat(cur, old(direction), |players|))
        && discardPile.size == (if old(drawPile.cards) == [] then 1 else old(discardPile.size))
      ensures direction == old(direction) && ended == old(ended) && winningPlayer == old(winningPlayer)
      ensures unoCalled == old(unoCalled)
    {
      if ended {
        return Fail(RoundFinished);
      }
      DrawCard();
      var ok := CanPlay(|hands[currentTurn]| - 1);
      if !ok {
        currentTurn := Seat(currentTurn, direction, |players|);
      }
      return Pass;
    }

    /**
     * The part of `draw` before the turn moves on (src/model/hand.ts:298-319):
     * the previous actor's last action is cleared, the current player
     * becomes the previous one, takes one card and is recorded as having
     * drawn.
     */
    method DrawCard()
      requires Valid() && !ended
      modifies this`hands, this`previousTurn, this`lastActions, drawPile, discardPile
      ensures Valid()
      ensures var cur := currentTurn;
        var d := DrawOne(Piles(old(drawPile.cards), old(discardPile.cards)), shuffler);
        && hands == old(hands)[cur := old(hands[cur]) + Drawn(d.0)]
        && Piles(drawPile.cards, discardPile.cards) == d.1
        && previousTurn == cur
        && lastActions == old(lastActions)[old(previousTurn) := NoAction][cur := Drew]
      ensures discardPile.size == if old(drawPile.cards) == [] then 1 else old(discardPile.size)
    {
      lastActions := lastActions[previousTurn := NoAction];
      previousTurn := currentTurn;
      ghost var before := Piles(drawPile.cards, discardPile.cards);
      ghost var handsBefore := hands;
      var c := TakeCard(currentTurn);
      if IsShuffler(shuffler) {
        TakeCardCount(handsBefore, currentTurn, before);
      }
      lastActions := lastActions[currentTurn := Drew];
    }

    // -------------------------------------------------------------------
    // UNO
    // -------------------------------------------------------------------

    /**
     * sayUno: throws for a seat outside the table or a finished round;
     * otherwise records the player only when they hold exactly one card.
     */
    method SayUno(i: int) returns (r: Outcome<HandError>)
      requires Valid()
      modifies this`unoCalled
      ensures Valid()
      ensures (i < 0 || i >= |players| || ended) ==> r == Fail(PlayerIndexOutOfBounds) && unoCalled == old(unoCalled)
      ensures !(i < 0 || i >= |players| || ended) ==>
        r == Pass && unoCalled == (if |hands[i]| == 1 then old(unoCalled) + {i} else old(unoCalled))
    {
      if i < 0 || i >= |players| || ended {
        return Fail(PlayerIndexOutOfBounds);
      }
      if |hands[i]| == 1 {
        unoCalled := unoCalled + {i};
      }
      return Pass;
    }

    /**
     * catchUnoFailure: throws for an accused, then an accuser, outside the
     * table. The accusation fails, changing nothing, unless the accused
     * holds exactly one card, has not said UNO and still has a last action;
     * when it succeeds the accused takes four cards, reclaiming the discard
     * pile whenever the draw pile runs out.
     */
    method CatchUnoFailure(accuser: int, accused: int) returns (r: Result<bool, HandError>)
      requires Valid()
      modifies this`hands, drawPile, discardPile
      ensures Valid()
      ensures (accused < 0 || accused >= |players|) ==> r == Failure(InvalidAccused)
      ensures 0 <= accused < |players| && (accuser < 0 || accuser >= |players|) ==> r == Failure(InvalidAccuser)
      ensures r.Success? <==> 0 <= accused < |players| && 0 <= accuser < |players|
      ensures r.Success? ==>
        (r.value <==> |old(hands[accused])| == 1 && accused !in unoCalled && lastActions[accused] != NoAction)
      ensures !(r.Success? && r.value) ==>
        && hands == old(hands) && drawPile.cards == old(drawPile.cards) && discardPile.cards == old(discardPile.cards)
        && discardPile.size == old(discardPile.size)
      ensures r.Success? && r.value ==>
        var p := Piles(old(drawPile.cards), old(discardPile.cards));
        var d := DrawMany(p, shuffler, 4);
        && hands == old(hands)[accused := old(hands[accused]) + d.0]
        && Piles(drawPile.cards, discardPile.cards) == d.1
        && discardPile.size == (if DrawManyReclaims(p, shuffler, 4) then 1 else old(discardPile.size))
    {
      if accused < 0 || accused >= |players| {
        return Failure(InvalidAccused);
      }
      if accuser < 0 || accuser >= |players| {
        return Failure(InvalidAccuser);
      }
      if |hands[accused]| != 1 || accused in unoCalled {
        return Success(false);
      }
      if lastActions[accused] == NoAction {
        return Success(false);
      }
      ghost var start := Piles(drawPile.cards, discardPile.cards);
      ghost var handsBefore := hands;
      var cards := TakeCards(accused, 4);
      if IsShuffler(shuffler) {
        DrawManySize(start, shuffler, 4);
        TotalCardsUpdate(handsBefore, accused, handsBefore[accused] + cards);
      }
      return Success(true);
    }

    // -------------------------------------------------------------------
    // Playing a card
    // -------------------------------------------------------------------

    /**
     * Up to `k` cards from the front of the draw pile, and only from it, for
     * the player at `target`; dealing stops when the pile runs out
     * (src/model/hand.ts:229-262).
     */
    method GivePenalty(target: int, k: nat)
      requires 0 <= target < |hands| && drawPile != discardPile && drawPile.Valid()
      modifies this`hands, drawPile
      ensures var t := Take(k, |old(drawPile.cards)|);
        && hands == old(hands)[target := old(hands[target]) + old(drawPile.cards)[..t]]
        && drawPile.cards == old(drawPile.cards)[t..]
      ensures drawPile.Valid()
    {
      var i := 0;
      assert old(hands[target]) + old(drawPile.cards)[..0] == old(hands[target]);
      while i < k
        invariant 0 <= i <= k
        invariant drawPile.Valid()
        invariant var t := Take(i, |old(drawPile.cards)|);
          && hands == old(hands)[target := old(hands[target]) + old(drawPile.cards)[..t]]
          && drawPile.cards == old(drawPile.cards)[t..]
      {
        ghost var t := Take(i, |old(drawPile.cards)|);
        var c := drawPile.Deal();
        if c.None? {
          break;
        }
        assert old(drawPile.cards)[..t + 1] == old(drawPile.cards)[..t] + [c.value];
        assert Take(i + 1, |old(drawPile.cards)|) == t + 1;
        assert old(hands[target]) + old(drawPile.cards)[..t] + [c.value] == old(hands[target]) + old(drawPile.cards)[..t + 1];
        hands := hands[target := hands[target] + [c.value]];
        i := i + 1;
      }
    }

    /**
     * The first part of a successful `play`: the card leaves the current
     * hand for the discard top, an emptied hand ends the round with its
     * player as winner, and the player's action is recorded while the
     * previous seat's is cleared.
     */
    method Discard(idx: int)
      requires Valid() && !ended
      requires 0 <= idx < |hands[currentTurn]|
      modifies this`hands, this`ended, this`winningPlayer, this`lastActions, discardPile`cards
      ensures Valid()
      ensures var cur := currentTurn;
        && hands == old(hands)[cur := Remove(old(hands[cur]), idx)]
        && discardPile.cards == old(discardPile.cards) + [old(hands[cur][idx])]
        && (ended <==> |old(hands[cur])| == 1)
        && winningPlayer == (if ended then Some(cur) else None)
        && lastActions == old(lastActions)[cur := Played][Seat(cur, -direction, |players|) := NoAction]
    {
      var cur := currentTurn;
      var hand := hands[cur];
      var card := hand[idx];
      var rest := Remove(hand, idx);
      if IsShuffler(shuffler) {
        TotalCardsUpdate(hands, cur, rest);
      }
      hands := hands[cur := rest];
      discardPile.cards := discardPile.cards + [card];
      if |rest| == 0 {
        ended := true;
        winningPlayer := Some(cur);
      }
      lastActions := lastActions[cur := Played];
      var previousPlayer := Seat(cur, -direction, |players|);
      lastActions := lastActions[previousPlayer := NoAction];
    }

    /**
     * The second part of a successful `play`, for the card now on the
     * discard top: the penalty for the next seat, the new turn and
     * direction (the per-card branches of src/model/hand.ts:221-280, whose
     * arithmetic NextTurn states), and the chosen colour for a wild card.
     */
    method ApplyEffect(card: Card, color: string)
      requires Valid()
      requires winningPlayer.Some? ==> winningPlayer.value == currentTurn
      requires discardPile.cards != [] && discardPile.cards[|discardPile.cards| - 1] == card
      modifies this`hands, this`currentTurn, this`direction, drawPile, discardPile`cards
      ensures Valid()
      ensures var cur, dir, n := old(currentTurn), old(direction), |players|;
        var next := Seat(cur, dir, n);
        var t := Take(Penalty(card), |old(drawPile.cards)|);
        && discardPile.cards == old(discardPile.cards)[..|old(discardPile.cards)| - 1] + [Recolored(card, color)]
        && drawPile.cards == old(drawPile.cards)[t..]
        && hands == old(hands)[next := old(hands[next]) + old(drawPile.cards)[..t]]
        && (currentTurn, direction) == NextTurn(card, cur, dir, n)
    {
      var n := |players|;
      var cur, dir := currentTurn, direction;
      var next := Seat(cur, dir, n);
      SeatOneStep(cur, dir, n);
      StepMoves(cur, dir, n);
      if Penalty(card) > 0 {
        PenalizeNext(next, Penalty(card));
      } else {
        assert old(hands[next]) + old(drawPile.cards)[..0] == old(hands[next]);
      }
      currentTurn, direction := NextTurn(card, cur, dir, n).0, NextTurn(card, cur, dir, n).1;
      if IsWild(card) {
        RecolorTop(color);
      }
    }

    /**
     * The penalty of DRAW and WILD DRAW (src/model/hand.ts:227-262): the
     * seat at `target`, which is not the winner's, takes up to `k` cards
     * from the front of the draw pile.
     */
    method PenalizeNext(target: int, k: nat)
      requires Valid() && 0 <= target < |players|
      requires winningPlayer.Some? ==> winningPlayer.value != target
      modifies this`hands, drawPile
      ensures Valid()
      ensures var t := Take(k, |old(drawPile.cards)|);
        && hands == old(hands)[target := old(hands[target]) + old(drawPile.cards)[..t]]
        && drawPile.cards == old(drawPile.cards)[t..]
    {
      GivePenalty(target, k);
      if IsShuffler(shuffler) {
        TotalCardsUpdate(old(hands), target, hands[target]);
      }
    }

    /**
     * The colour choice for a wild card on the discard top
     * (src/model/hand.ts:269-277): it takes the chosen colour when the
     * argument names one of the four; the pile keeps its length.
     */
    method RecolorTop(color: string)
      requires Valid() && discardPile.cards != []
      modifies discardPile`cards
      ensures Valid()
      ensures var top := old(discardPile.cards[|discardPile.cards| - 1]);
        discardPile.cards == old(discardPile.cards)[..|old(discardPile.cards)| - 1] + [Recolored(top, color)]
    {
      var top := discardPile.Top();
      if top.Some? && ParseColor(color).Some? {
        discardPile.cards := discardPile.cards[..|discardPile.cards| - 1] + [Recolored(top.value, color)];
      } else {
        assert discardPile.cards == discardPile.cards[..|discardPile.cards| - 1] + [top.value];
      }
    }

    /**
     * play: clears the last action of the previous actor and records the
     * current player as the previous one, whether or not the play then
     * succeeds (src/model/hand.ts:191-192); the rest is PlayChecked.
     */
    method Play(idx: int, color: string) returns (r: Result<Card, HandError>)
      requires Valid()
      modifies this, drawPile, discardPile
      ensures Valid()
      ensures previousTurn == old(currentTurn)
      ensures unoCalled == old(unoCalled) && discardPile.size == old(discardPile.size)
      ensures old(ended) ==> r == Failure(RoundFinished)
      ensures !old(ended) && !(0 <= idx < |old(hands[currentTurn])|) ==> r == Failure(InvalidCardIndex)
      ensures !old(ended) && 0 <= idx < |old(hands[currentTurn])| ==>
        (r.Success? <==> Playable(old(hands[currentTurn]), idx, old(discardPile.Top()))
                         && ColorArgumentOk(old(hands[currentTurn][idx]), color))
      ensures r.Failure? && !old(ended) && 0 <= idx < |old(hands[currentTurn])| ==> r.error == IllegalPlay
      ensures r.Failure? ==>
        && hands == old(hands) && currentTurn == old(currentTurn) && direction == old(direction)
        && ended == old(ended) && winningPlayer == old(winningPlayer)
        && drawPile.cards == old(drawPile.cards) && discardPile.cards == old(discardPile.cards)
        && lastActions == old(lastActions)[old(previousTurn) := NoAction]
      ensures r.Success? ==>
        var cur, dir, n := old(currentTurn), old(direction), |players|;
        var card := old(hands[cur][idx]);
        var next := Seat(cur, dir, n);
        var t := Take(Penalty(card), |old(drawPile.cards)|);
        && r.value == Recolored(card, color)
        && discardPile.cards == old(discardPile.cards) + [r.value]
        && drawPile.cards == old(drawPile.cards)[t..]
        && hands == old(hands)[cur := Remove(old(hands[cur]), idx)][next := old(hands[next]) + old(drawPile.cards)[..t]]
        && (currentTurn, direction) == NextTurn(card, cur, dir, n)
        && (ended <==> |old(hands[cur])| == 1)
        && winningPlayer == (if ended then Some(cur) else None)
        && lastActions == old(lastActions)[old(previousTurn) := NoAction][cur := Played][Seat(cur, -dir, n) := NoAction]
    {
      lastActions := lastActions[previousTurn := NoAction];
      previousTurn := currentTurn;
      r := PlayChecked(idx, color);
    }

    /**
     * The checks and effects of `play` (src/model/hand.ts:193-293): it
     * throws if the round has ended, the index is outside the hand, the card
     * is not playable, a wild card comes without a colour or a coloured card
     * comes with one. Otherwise the card leaves the hand for the discard
     * top, playing the last card ends the round with this player as winner,
     * the player's action is recorded and the previous seat's cleared, DRAW
     * and WILD DRAW give the next seat up to 2 and 4 cards of the draw pile,
     * the turn and direction move on, and a wild card takes a valid chosen
     * colour. The result is the played card object, which is the discard
     * top, so it carries the chosen colour.
     */
    method PlayChecked(idx: int, color: string) returns (r: Result<Card, HandError>)
      requires Valid()
      modifies this`hands, this`currentTurn, this`direction, this`ended, this`winningPlayer, this`lastActions
      modifies drawPile, discardPile`cards
      ensures Valid()
      ensures old(ended) ==> r == Failure(RoundFinished)
      ensures !old(ended) && !(0 <= idx < |old(hands[currentTurn])|) ==> r == Failure(InvalidCardIndex)
      ensures !old(ended) && 0 <= idx < |old(hands[currentTurn])| ==>
        (r.Success? <==> Playable(old(hands[currentTurn]), idx, old(discardPile.Top()))
                         && ColorArgumentOk(old(hands[currentTurn][idx]), color))
      ensures r.Failure? && !old(ended) && 0 <= idx < |old(hands[currentTurn])| ==> r.error == IllegalPlay
      ensures r.Failure? ==>
        && hands == old(hands) && currentTurn == old(currentTurn) && direction == old(direction)
        && ended == old(ended) && winningPlayer == old(winningPlayer)
        && drawPile.cards == old(drawPile.cards) && discardPile.cards == old(discardPile.cards)
        && lastActions == old(lastActions)
      ensures r.Success? ==>
        var cur, dir, n := old(currentTurn), old(direction), |players|;
        var card := old(hands[cur][idx]);
        var next := Seat(cur, dir, n);
        var t := Take(Penalty(card), |old(drawPile.cards)|);
        && r.value == Recolored(card, color)
        && discardPile.cards == old(discardPile.cards) + [r.value]
        && drawPile.cards == old(drawPile.cards)[t..]
        && hands == old(hands)[cur := Remove(old(hands[cur]), idx)][next := old(hands[next]) + old(drawPile.cards)[..t]]
        && (currentTurn, direction) == NextTurn(card, cur, dir, n)
        && (ended <==> |old(hands[cur])| == 1)
        && winningPlayer == (if ended then Some(cur) else None)
        && lastActions == old(lastActions)[cur := Played][Seat(cur, -dir, n) := NoAction]
    {
      var hand := hands[currentTurn];
      if ended {
        return Failure(RoundFinished);
      }
      if idx < 0 || idx >= |hand| {
        return Failure(InvalidCardIndex);
      }
      var card := hand[idx];
      var ok := CanPlay(idx);
      if !ok || (IsWild(card) && color == "") || (ColorOf(card).Some? && color != "") {
        return Failure(IllegalPlay);
      }
      r := PlayCard(idx, color);
    }

    /**
     * The effects of a legal `play` (src/model/hand.ts:196-292): Discard
     * then ApplyEffect; the result is the discard top, the played card
     * with the chosen colour.
     */
    method PlayCard(idx: int, color: string) returns (r: Result<Card, HandError>)
      requires Valid() && !ended && 0 <= idx < |hands[currentTurn]|
      modifies this`hands, this`currentTurn, this`direction, this`ended, this`winningPlayer, this`lastActions
      modifies drawPile, discardPile`cards
      ensures Valid()
      ensures r.Success?
      ensures var cur, dir, n := old(currentTurn), old(direction), |players|;
        var card := old(hands[cur][idx]);
        var next := Seat(cur, dir, n);
        var t := Take(Penalty(card), |old(drawPile.cards)|);
        && r.value == Recolored(card, color)
        && discardPile.cards == old(discardPile.cards) + [r.value]
        && drawPile.cards == old(drawPile.cards)[t..]
        && hands == old(hands)[cur := Remove(old(hands[cur]), idx)][next := old(hands[next]) + old(drawPile.cards)[..t]]
        && (currentTurn, direction) == NextTurn(card, cur, dir, n)
        && (ended <==> |old(hands[cur])| == 1)
        && winningPlayer == (if ended then Some(cur) else None)
        && lastActions == old(lastActions)[cur := Played][Seat(cur, -dir, n) := NoAction]
    {
      var card := hands[currentTurn][idx];
      ghost var cur, dir, n := currentTurn, direction, |players|;
      ghost var next := Seat(cur, dir, n);
      SeatOneStep(cur, dir, n);
      StepMoves(cur, dir, n);
      ghost var h0 := hands;
      Discard(idx);
      ghost var h1, la1 := hands, lastActions;
      assert h1[next] == h0[next];
      ApplyEffect(card, color);
      assert lastActions == la1;
      return Success(discardPile.cards[|discardPile.cards| - 1]);
    }
  }

  /**
   * createHand (src/model/hand.ts:26-113): validates the player count and
   * the dealer, shuffles a fresh standard deck with the given shuffler,
   * deals `cardsPerPlayer` cards to each player (seven when none is given),
   * flips an opening discard that is not wild, and sets the first turn from the opening card; for a
   * DRAW the first player takes two cards from the draw pile. The previous
   * turn starts at the dealer. The reshuffle loop is bounded by
   * `reshuffleLimit`.
   */
  method CreateHand(players: seq<string>, dealer: int, shuffler: Shuffler, cardsPerPlayer: Option<int>, reshuffleLimit: nat)
    returns (r: Result<Hand, HandError>)
    ensures var k := CardsPerPlayerOr(cardsPerPlayer);
      r.Failure? <==> SetupError(players, dealer, shuffler, k, reshuffleLimit).Some?
    ensures var k := CardsPerPlayerOr(cardsPerPlayer);
      r.Failure? ==> SetupError(players, dealer, shuffler, k, reshuffleLimit) == Some(r.error)
    ensures r.Success? ==> fresh(r.value) && fresh(r.value.drawPile) && fresh(r.value.discardPile)
    ensures r.Success? ==> r.value.Valid()
    ensures r.Success? ==>
      var h := r.value;
      var s := SetupOf(|players|, dealer, shuffler, CardsPerPlayerOr(cardsPerPlayer), reshuffleLimit).value;
      && h.players == players && h.dealer == dealer && h.shuffler == shuffler
      && h.hands == s.hands && h.drawPile.cards == s.draw && h.discardPile.cards == s.discard
      && h.currentTurn == s.first && h.previousTurn == dealer
      && h.direction == 1 && !h.ended && h.winningPlayer == None && h.unoCalled == {}
      && h.lastActions == seq(|players|, _ => NoAction)
  {
    if |players| < 2 || |players| > 10 {
      return Failure(InvalidPlayerCount);
    }
    if dealer < 0 || dealer >= |players| {
      return Failure(DealerOutOfBounds);
    }
    var n := |players|;
    var k := CardsPerPlayerOr(cardsPerPlayer);
    var deck := new Pile.Initial();
    deck.Shuffle(shuffler);
    var ok, hands, draw, discard, current := DealAndFlip(deck, n, dealer, shuffler, k, reshuffleLimit);
    if !ok {
      return Failure(ReshuffleLimit);
    }
    if IsShuffler(shuffler) {
      SetupConserves(n, dealer, shuffler, k, reshuffleLimit);
    }
    var h := Assemble(players, dealer, shuffler, draw, discard, hands, current);
    return Success(h);
  }

  /**
   * The round createHand returns (src/model/hand.ts:58-66 and 103): the
   * dealt hands, the two piles and the first turn of a successful setup,
   * with the previous turn at the dealer, direction 1, no actions and no
   * UNO calls.
   */
  method Assemble(players: seq<string>, dealer: int, shuffler: Shuffler,
                  draw: Pile, discard: Pile, hands: seq<seq<Card>>, current: int)
    returns (h: Hand)
    requires 2 <= |players| <= 10 && 0 <= dealer < |players|
    requires |hands| == |players| && 0 <= current < |players|
    requires draw != discard && draw.Valid()
    requires IsShuffler(shuffler) ==> TotalCards(hands) + |draw.cards| + |discard.cards| == DeckSize
    ensures fresh(h) && h.Valid()
    ensures h.players == players && h.dealer == dealer && h.shuffler == shuffler
    ensures h.drawPile == draw && h.discardPile == discard && h.hands == hands
    ensures h.currentTurn == current && h.previousTurn == dealer
    ensures h.direction == 1 && !h.ended && h.winningPlayer == None && h.unoCalled == {}
    ensures h.lastActions == seq(|players|, _ => NoAction)
  {
    var n := |players|;
    var previous := dealer % n;
    ModSmall(dealer, n);
    h := new Hand.Init(players, dealer, shuffler, draw, discard, hands, current, previous);
    assert h.CardCount() == TotalCards(hands) + |draw.cards| + |discard.cards|;
  }

  /**
   * createHand as a game sees it: the same failures, and on success a
   * fresh valid round at the given table and dealer that has not ended.
   */
  method NewHand(players: seq<string>, dealer: int, shuffler: Shuffler, cardsPerPlayer: int, reshuffleLimit: nat)
    returns (r: Result<Hand, HandError>)
    ensures r.Failure? <==> SetupError(players, dealer, shuffler, cardsPerPlayer, reshuffleLimit).Some?
    ensures r.Failure? ==> SetupError(players, dealer, shuffler, cardsPerPlayer, reshuffleLimit) == Some(r.error)
    ensures r.Success? ==> fresh(r.value) && r.value.Valid()
    ensures r.Success? ==> r.value.players == players && r.value.dealer == dealer && !r.value.ended
  {
    r := CreateHand(players, dealer, shuffler, Some(cardsPerPlayer), reshuffleLimit);
  }

  /**
   * The part of createHand after the shuffle (src/model/hand.ts:72-113):
   * deal the hands, flip the opening discard, copy the rest of the deck to
   * a new draw pile and apply the opening card to the first turn. `ok` is
   * false when the reshuffle bound was reached.
   */
  method DealAndFlip(deck: Pile, n: nat, dealer: int, shuffler: Shuffler, k: int, fuel: nat)
    returns (ok: bool, hands: seq<seq<Card>>, draw: Pile, discard: Pile, current: int)
    requires 2 <= n && 0 <= dealer < n && deck.Valid()
    modifies deck
    ensures var s := SetupFrom(old(deck.cards), n, dealer, shuffler, k, fuel);
      (ok <==> s.Some?)
      && (ok ==> hands == s.value.hands && draw.cards == s.value.draw && discard.cards == s.value.discard
                 && current == s.value.first)
    ensures fresh(draw) && fresh(discard) && draw != discard && draw.Valid()
  {
    hands := DealInto(deck, n, k);
    discard := new Pile.Empty();
    var top;
    top, ok := FlipDiscard(deck, discard, shuffler, fuel);
    if !ok {
      draw := new Pile.Empty();
      current := dealer;
      return;
    }
    hands, draw, current := OpenRound(deck, hands, top, dealer, n);
  }

}
