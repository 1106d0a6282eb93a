/**
 * The earlier, setup-only version of a round (src/model/hand2.ts): the same
 * validation, dealing and opening card, except that a wild card flipped
 * for the discard pile is dropped instead of being put back, and the round
 * only answers who is in turn and who holds what.
 */
module EarlyHand {
  import opened Results
  import opened Cards
  import opened Deck
  import opened Rules
  import opened Opening

  /** The errors this version throws. */
  datatype EarlyError =
    | InvalidPlayerCount
    | DealerOutOfBounds
    | PlayerIndexOutOfBounds

  class Hand {
    const players: seq<string>
    const dealer: int
    const drawPile: Pile
    const discardPile: Pile
    const hands: seq<seq<Card>>
    const currentTurn: int

    /**
     * The state after setup: indices in range, one hand per player, a
     * discard pile of size 1 holding at most one card, and that card not
     * wild.
     */
    ghost predicate Valid()
      reads drawPile, discardPile
    {
      && 2 <= |players| <= 10
      && 0 <= dealer < |players|
      && |hands| == |players|
      && 0 <= currentTurn < |players|
      && drawPile != discardPile
      && drawPile.Valid()
      && discardPile.size == 1
      && |discardPile.cards| <= 1
      && (forall c :: c in discardPile.cards ==> !IsWild(c))
    }

    constructor Init(players: seq<string>, dealer: int, drawPile: Pile, discardPile: Pile,
                     hands: seq<seq<Card>>, currentTurn: int)
      ensures this.players == players && this.dealer == dealer
      ensures this.drawPile == drawPile && this.discardPile == discardPile
      ensures this.hands == hands && this.currentTurn == currentTurn
    {
      this.players := players;
      this.dealer := dealer;
      this.drawPile := drawPile;
      this.discardPile := discardPile;
      this.hands := hands;
      this.currentTurn := currentTurn;
    }

    /** playerInTurn: always a seat at the table (src/model/hand2.ts:73). */
    function PlayerInTurn(): (t: int)
      reads drawPile, discardPile
      requires Valid()
      ensures 0 <= t < |players|
    {
      currentTurn
    }

    /** player: the name at a seat, or an error outside the table (src/model/hand2.ts:74-79). */
    function Player(i: int): (r: Result<string, EarlyError>)
      ensures r.Success? <==> 0 <= i < |players|
      ensures r.Success? ==> r.value == players[i]
      ensures r.Failure? ==> r.error == PlayerIndexOutOfBounds
    {
      if i < 0 || i >= |players| then Failure(PlayerIndexOutOfBounds) else Success(players[i])
    }

    /** playerHand: the hand at a seat, or an error outside the hands (src/model/hand2.ts:80-85). */
    function PlayerHand(i: int): (r: Result<seq<Card>, EarlyError>)
      ensures r.Success? <==> 0 <= i < |hands|
      ensures r.Success? ==> r.value == hands[i]
      ensures r.Failure? ==> r.error == PlayerIndexOutOfBounds
    {
      if i < 0 || i >= |hands| then Failure(PlayerIndexOutOfBounds) else Success(hands[i])
    }
  }

  /**
   * The round this version sets up from a shuffled deck: the hands dealt,
   * the wild-dropping flip, and the opening card's effect.
   */
  function EarlySetupFrom(deck: seq<Card>, n: nat, dealer: int, shuffler: Shuffler, k: int): (r: Opened)
    requires 2 <= n && 0 <= dealer < n && IsShuffler(shuffler)
    ensures |r.hands| == n && 0 <= r.first < n
  {
    var dealt := DealHands(deck, n, k);
    var flip := EarlyFlip(dealt.1, shuffler);
    ApplyOpening(dealt.0, flip.0, flip.1, dealer, n)
  }

  /** After setup the discard pile holds at most one card, not wild, and the first turn fits it. */
  lemma EarlySetupOpening(deck: seq<Card>, n: nat, dealer: int, shuffler: Shuffler, k: int)
    requires 2 <= n && 0 <= dealer < n && IsShuffler(shuffler)
    ensures var r := EarlySetupFrom(deck, n, dealer, shuffler, k);
      |r.discard| <= 1 && (forall c :: c in r.discard ==> !IsWild(c)) && FirstTurnFits(r, dealer, n)
  {
    var dealt := DealHands(deck, n, k);
    var flip := EarlyFlip(dealt.1, shuffler);
    EarlyFlipProperties(dealt.1, shuffler);
    ApplyOpeningEffect(dealt.0, flip.0, flip.1, dealer, n);
  }

  /**
   * Setup loses only wild cards: the hands and piles hold part of the deck,
   * and every card that is not wild as often as the deck does.
   */
  lemma EarlySetupKeeps(deck: seq<Card>, n: nat, dealer: int, shuffler: Shuffler, k: int)
    requires 2 <= n && 0 <= dealer < n && IsShuffler(shuffler)
    ensures var r := EarlySetupFrom(deck, n, dealer, shuffler, k);
      multiset(Flatten(r.hands)) + multiset(r.draw) + multiset(r.discard) <= multiset(deck)
    ensures var r := EarlySetupFrom(deck, n, dealer, shuffler, k);
      forall c: Card :: !IsWild(c) ==>
        (multiset(Flatten(r.hands)) + multiset(r.draw) + multiset(r.discard))[c] == multiset(deck)[c]
  {
    var r := EarlySetupFrom(deck, n, dealer, shuffler, k);
    var dealt := DealHands(deck, n, k);
    var flip := EarlyFlip(dealt.1, shuffler);
    DealConserves(deck, n, k);
    EarlyFlipProperties(dealt.1, shuffler);
    ApplyOpeningConserves(dealt.0, flip.0, flip.1, dealer, n);
    var a := multiset(Flatten(dealt.0));
    var kept := multiset(Drawn(flip.0)) + multiset(flip.1);
    var all := multiset(Flatten(r.hands)) + multiset(r.draw) + multiset(r.discard);
    assert all == a + kept;
    assert multiset(deck) == a + multiset(dealt.1);
    assert kept <= multiset(dealt.1);
    forall c: Card | !IsWild(c)
      ensures all[c] == multiset(deck)[c]
    {
      assert kept[c] == multiset(dealt.1)[c];
    }
  }

  /**
   * A wild card turned up first from the dealt deck is lost: the hands and
   * piles after setup hold part of the deck without it.
   */
  lemma EarlySetupDropsWild(deck: seq<Card>, n: nat, dealer: int, shuffler: Shuffler, k: int)
    requires 2 <= n && 0 <= dealer < n && IsShuffler(shuffler)
    ensures var r := EarlySetupFrom(deck, n, dealer, shuffler, k);
      var rest := DealHands(deck, n, k).1;
      rest != [] && IsWild(rest[0]) ==>
        multiset(Flatten(r.hands)) + multiset(r.draw) + multiset(r.discard) + multiset{rest[0]} <= multiset(deck)
  {
    var dealt := DealHands(deck, n, k);
    var rest := dealt.1;
    if rest != [] && IsWild(rest[0]) {
      var r := EarlySetupFrom(deck, n, dealer, shuffler, k);
      var flip := EarlyFlip(rest, shuffler);
      DealConserves(deck, n, k);
      EarlyFlipDropsWild(rest, shuffler);
      ApplyOpeningConserves(dealt.0, flip.0, flip.1, dealer, n);
      var a := multiset(Flatten(dealt.0));
      var kept := multiset(Drawn(flip.0)) + multiset(flip.1);
      assert multiset(Flatten(r.hands)) + multiset(r.draw) + multiset(r.discard) == a + kept;
      HeadAndPart(rest, a, kept);
      assert multiset(deck) == a + multiset(rest);
    }
  }

  /** Part of a sequence's tail, with its head and any other cards added, is part of the sequence with them. */
  lemma HeadAndPart(s: seq<Card>, a: multiset<Card>, kept: multiset<Card>)
    requires s != [] && kept <= multiset(s[1..])
    ensures a + kept + multiset{s[0]} <= a + multiset(s)
  {
    assert s == [s[0]] + s[1..];
  }

  /**
   * createHand of hand2.ts (src/model/hand2.ts:14-67): validates the player
   * count and the dealer, shuffles a fresh standard deck, deals
   * `cardsPerPlayer` cards to each player (seven when none is given),
   * flips an opening discard
   * dropping wild cards, and sets the first turn from the opening card.
   * The shuffler must permute, which makes the dropping loop end.
   */
  method CreateHand(players: seq<string>, dealer: int, shuffler: Shuffler, cardsPerPlayer: Option<int>)
    returns (r: Result<Hand, EarlyError>)
    requires IsShuffler(shuffler)
    ensures !(2 <= |players| <= 10) ==> r == Failure(InvalidPlayerCount)
    ensures 2 <= |players| <= 10 && !(0 <= dealer < |players|) ==> r == Failure(DealerOutOfBounds)
    ensures r.Success? <==> 2 <= |players| <= 10 && 0 <= dealer < |players|
    ensures r.Success? ==> fresh(r.value) && fresh(r.value.drawPile) && fresh(r.value.discardPile)
    ensures r.Success? ==> r.value.Valid()
    ensures r.Success? ==>
      var h := r.value;
      var s := EarlySetupFrom(shuffler(StandardDeck()), |players|, dealer, shuffler, CardsPerPlayerOr(cardsPerPlayer));
      && h.players == players && h.dealer == dealer
      && h.hands == s.hands && h.drawPile.cards == s.draw && h.discardPile.cards == s.discard
      && h.currentTurn == s.first
  {
    if |players| < 2 || |players| > 10 {
      return Failure(InvalidPlayerCount);
    }
    if dealer < 0 || dealer >= |players| {
      return Failure(DealerOutOfBounds);
    }
    var n := |players|;
    var deck := new Pile.Initial();
    deck.Shuffle(shuffler);
    var k := CardsPerPlayerOr(cardsPerPlayer);
    var hands, draw, discard, current := DealAndDrop(deck, n, dealer, shuffler, k);
    var h := new Hand.Init(players, dealer, draw, discard, hands, current);
    return Success(h);
  }

  /**
   * The part of createHand after the shuffle (src/model/hand2.ts:30-66):
   * deal, flip onto a discard pile made from a fresh standard deck whose
   * cards are then replaced, copy the rest to the draw pile, and apply the
   * opening card.
   */
  method DealAndDrop(deck: Pile, n: nat, dealer: int, shuffler: Shuffler, k: int)
    returns (hands: seq<seq<Card>>, draw: Pile, discard: Pile, current: int)
    requires 2 <= n && 0 <= dealer < n && deck.Valid() && IsShuffler(shuffler)
    modifies deck
    ensures Opened(hands, draw.cards, discard.cards, current) == EarlySetupFrom(old(deck.cards), n, dealer, shuffler, k)
    ensures fresh(draw) && fresh(discard) && draw != discard && draw.Valid()
    ensures discard.size == 1 && |discard.cards| <= 1 && forall c :: c in discard.cards ==> !IsWild(c)
  {
    hands := DealInto(deck, n, k);
    ghost var dealt := deck.cards;
    discard := new Pile.Initial();
    var top := FlipDropping(deck, discard, shuffler);
    EarlyFlipProperties(dealt, shuffler);
    hands, draw, current := OpenRound(deck, hands, top, dealer, n);
  }
}
