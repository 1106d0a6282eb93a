/**
 * The setup steps both versions of `createHand` share (src/model/hand.ts
 * and src/model/hand2.ts): dealing the hands from the shuffled deck and
 * flipping an opening discard that is not wild. The two versions differ in
 * what happens to a rejected wild card: hand.ts puts it back under the deck
 * before reshuffling, hand2.ts drops it.
 */
module Opening {
  import opened Results
  import opened Cards
  import opened Deck
  import opened Rules

  // ---------------------------------------------------------------------
  // Dealing
  // ---------------------------------------------------------------------

  /**
   * The dealing loops: player by player, `k` deals from the front of the
   * deck, keeping the cards the deck still had (src/model/hand.ts:74-83,
   * src/model/hand2.ts:30-39). The hands and the rest of the deck are
   * those of DealHands.
   */
  method DealInto(deck: Pile, n: nat, k: int) returns (hands: seq<seq<Card>>)
    requires deck.Valid()
    modifies deck
    ensures deck.Valid()
    ensures (hands, deck.cards) == DealHands(old(deck.cards), n, k)
  {
    hands := [];
    var i := 0;
    while i < n
      invariant 0 <= i <= n
      invariant deck.Valid()
      invariant (hands, deck.cards) == DealHands(old(deck.cards), i, k)
    {
      DealStep(old(deck.cards), i, k);
      var hand := DealHand(deck, k);
      hands := hands + [hand];
      i := i + 1;
    }
  }

  /** One player's turn at the deal (src/model/hand.ts:73-79): up to `k` cards off the front of the deck, in order. */
  method DealHand(deck: Pile, k: int) returns (hand: seq<Card>)
    requires deck.Valid()
    modifies deck
    ensures deck.Valid()
    ensures var t := Take(k, |old(deck.cards)|);
      hand == old(deck.cards)[..t] && deck.cards == old(deck.cards)[t..]
  {
    ghost var rest := deck.cards;
    hand := [];
    var j := 0;
    while j < k
      invariant 0 <= j <= (if k > 0 then k else 0)
      invariant deck.Valid()
      invariant hand == rest[..Take(j, |rest|)] && deck.cards == rest[Take(j, |rest|)..]
    {
      ghost var t := Take(j, |rest|);
      var c := deck.Deal();
      if c.Some? {
        assert Take(j + 1, |rest|) == t + 1;
        assert rest[..t + 1] == rest[..t] + [c.value];
      }
      hand := hand + Drawn(c);
      j := j + 1;
    }
  }

  // ---------------------------------------------------------------------
  // The opening discard of hand.ts
  // ---------------------------------------------------------------------

  /**
   * The reshuffle loop of hand.ts (src/model/hand.ts:91-98): while the
   * flipped card is wild, it goes back under the deck, the deck is
   * shuffled and its front card flipped instead. The loop has no bound in
   * the source; here at most `fuel` reshuffles happen and None means the
   * bound was reached with a wild card still on top. The result is the
   * opening card (none when the deck ran out) and the deck left over.
   */
  function Reflip(top: Option<Card>, deck: seq<Card>, shuffler: Shuffler, fuel: nat): Option<(Option<Card>, seq<Card>)>
    decreases fuel
  {
    if top.None? || !IsWild(top.value) then Some((top, deck))
    else if fuel == 0 then None
    else
      var d := shuffler(deck + [top.value]);
      if d == [] then Some((None, d))
      else Reflip(Some(d[0]), d[1..], shuffler, fuel - 1)
  }

  /** One round of the loop: a wild card goes back under the deck, which is shuffled and flipped again. */
  lemma ReflipStep(top: Card, deck: seq<Card>, shuffler: Shuffler, f: nat)
    requires IsWild(top)
    ensures var d := shuffler(deck + [top]);
      Reflip(Some(top), deck, shuffler, f + 1) ==
        if d == [] then Some((None, d)) else Reflip(Some(d[0]), d[1..], shuffler, f)
  {
  }

  /** The first flip from the dealt deck followed by the reshuffle loop (src/model/hand.ts:86-98). */
  function OpeningFlip(deck: seq<Card>, shuffler: Shuffler, fuel: nat): Option<(Option<Card>, seq<Card>)>
  {
    if deck == [] then Some((None, [])) else Reflip(Some(deck[0]), deck[1..], shuffler, fuel)
  }

  /** When the loop finishes, the opening card is not wild. */
  lemma {:induction false} ReflipNotWild(top: Option<Card>, deck: seq<Card>, shuffler: Shuffler, fuel: nat)
    ensures var r := Reflip(top, deck, shuffler, fuel);
      r.Some? && r.value.0.Some? ==> !IsWild(r.value.0.value)
    decreases fuel
  {
    if top.Some? && IsWild(top.value) && fuel > 0 {
      var d := shuffler(deck + [top.value]);
      if d != [] {
        var f: nat := fuel - 1;
        ReflipNotWild(Some(d[0]), d[1..], shuffler, f);
      }
    }
  }

  /**
   * With a shuffler that only permutes, the loop only moves cards: the
   * opening card and the leftover deck hold the cards it started with, and
   * a flipped card is never lost to an empty deck.
   */
  lemma {:induction false} ReflipConserves(top: Option<Card>, deck: seq<Card>, shuffler: Shuffler, fuel: nat)
    requires IsShuffler(shuffler)
    ensures var r := Reflip(top, deck, shuffler, fuel);
      r.Some? ==> multiset(Drawn(r.value.0)) + multiset(r.value.1) == multiset(Drawn(top)) + multiset(deck)
    ensures var r := Reflip(top, deck, shuffler, fuel);
      r.Some? && top.Some? ==> r.value.0.Some?
    decreases fuel
  {
    if top.Some? && IsWild(top.value) && fuel > 0 {
      var f: nat := fuel - 1;
      var d := shuffler(deck + [top.value]);
      Reshuffled(shuffler, deck, top.value);
      ReflipConserves(Some(d[0]), d[1..], shuffler, f);
      assert Reflip(top, deck, shuffler, fuel) == Reflip(Some(d[0]), d[1..], shuffler, f);
      assert multiset(Drawn(Some(d[0]))) == multiset{d[0]};
    }
  }

  /** A card put back under the deck before a shuffle leaves a deck to flip from, holding the same cards. */
  lemma Reshuffled(shuffler: Shuffler, deck: seq<Card>, top: Card)
    requires IsShuffler(shuffler)
    ensures var d := shuffler(deck + [top]);
      d != [] && multiset{d[0]} + multiset(d[1..]) == multiset{top} + multiset(deck)
  {
    var d := shuffler(deck + [top]);
    ShufflerKeepsSize(shuffler, deck + [top]);
    assert multiset(d) == multiset(deck) + multiset{top};
    assert d == [d[0]] + d[1..];
  }

  /** More reshuffles than needed change nothing: the bound only cuts the loop off. */
  lemma {:induction false} ReflipFuel(top: Option<Card>, deck: seq<Card>, shuffler: Shuffler, fuel: nat, more: nat)
    requires fuel <= more
    ensures Reflip(top, deck, shuffler, fuel).Some? ==>
      Reflip(top, deck, shuffler, more) == Reflip(top, deck, shuffler, fuel)
    decreases fuel
  {
    if top.Some? && IsWild(top.value) && fuel > 0 {
      var d := shuffler(deck + [top.value]);
      if d != [] {
        var f, m: nat := fuel - 1, more - 1;
        ReflipFuel(Some(d[0]), d[1..], shuffler, f, m);
      }
    }
  }

  /** The opening flip of hand.ts: it ends on a card that is not wild and only moves cards. */
  lemma OpeningFlipProperties(deck: seq<Card>, shuffler: Shuffler, fuel: nat)
    ensures var r := OpeningFlip(deck, shuffler, fuel);
      r.Some? && r.value.0.Some? ==> !IsWild(r.value.0.value)
    ensures var r := OpeningFlip(deck, shuffler, fuel);
      IsShuffler(shuffler) && r.Some? ==>
        multiset(Drawn(r.value.0)) + multiset(r.value.1) == multiset(deck)
        && (r.value.0.None? <==> deck == [])
  {
    if deck != [] {
      ReflipNotWild(Some(deck[0]), deck[1..], shuffler, fuel);
      if IsShuffler(shuffler) {
        ReflipConserves(Some(deck[0]), deck[1..], shuffler, fuel);
        assert deck == [deck[0]] + deck[1..];
        assert multiset(deck) == multiset{deck[0]} + multiset(deck[1..]);
      }
    }
  }

  /**
   * The discard flip of hand.ts on the piles: one deal onto the empty
   * discard pile, whose size is then refreshed, and the reshuffle loop,
   * which pushes the wild card back, shuffles, deals and makes the dealt
   * card the whole discard pile (src/model/hand.ts:86-98). `ok` is false
   * when the reshuffle bound was reached.
   */
  method FlipDiscard(deck: Pile, discard: Pile, shuffler: Shuffler, fuel: nat) returns (top: Option<Card>, ok: bool)
    requires deck != discard && deck.Valid()
    requires discard.cards == []
    modifies deck, discard
    ensures var f := OpeningFlip(old(deck.cards), shuffler, fuel);
      (ok <==> f.Some?) && (ok ==> top == f.value.0 && deck.cards == f.value.1)
    ensures ok ==> discard.cards == Drawn(top)
    ensures discard.size == if old(deck.cards) == [] then 0 else 1
  {
    top := deck.Deal();
    if top.Some? {
      discard.cards := discard.cards + [top.value];
    }
    discard.size := |discard.cards|;
    var left := fuel;
    while top.Some? && IsWild(top.value)
      invariant Reflip(top, deck.cards, shuffler, left) == OpeningFlip(old(deck.cards), shuffler, fuel)
      invariant discard.cards == Drawn(top)
      invariant discard.size == if old(deck.cards) == [] then 0 else 1
      decreases left
    {
      if left == 0 {
        return top, false;
      }
      ReflipStep(top.value, deck.cards, shuffler, left - 1);
      top := FlipAgain(deck, discard, shuffler, top.value);
      left := left - 1;
    }
    ok := true;
  }

  /**
   * One round of the reshuffle loop (src/model/hand.ts:92-97): the card
   * goes back under the deck, the deck is shuffled, and the card dealt
   * from it replaces the discard pile's contents.
   */
  method FlipAgain(deck: Pile, discard: Pile, shuffler: Shuffler, top: Card) returns (next: Option<Card>)
    requires deck != discard
    modifies deck, discard
    ensures var d := shuffler(old(deck.cards) + [top]);
      && (d == [] ==> next == None && deck.cards == d)
      && (d != [] ==> next == Some(d[0]) && deck.cards == d[1..])
    ensures discard.cards == Drawn(next) && discard.size == old(discard.size)
  {
    deck.cards := deck.cards + [top];
    deck.Shuffle(shuffler);
    next := deck.Deal();
    discard.cards := Drawn(next);
  }

  // ---------------------------------------------------------------------
  // The opening discard of hand2.ts
  // ---------------------------------------------------------------------

  /**
   * The reshuffle loop of hand2.ts (src/model/hand2.ts:48-52): a wild card
   * on top is dropped, the deck is shuffled and its front card flipped. A
   * shuffler that only permutes keeps the deck's length, so each round
   * shortens the deck and the loop ends.
   */
  function DropWilds(top: Option<Card>, deck: seq<Card>, shuffler: Shuffler): (Option<Card>, seq<Card>)
    requires IsShuffler(shuffler)
    decreases |deck|
  {
    if top.None? || !IsWild(top.value) then (top, deck)
    else
      var d := shuffler(deck);
      ShufflerKeepsSize(shuffler, deck);
      if d == [] then (None, d)
      else DropWilds(Some(d[0]), d[1..], shuffler)
  }

  /** The first flip from the dealt deck followed by the dropping loop (src/model/hand2.ts:43-52). */
  function EarlyFlip(deck: seq<Card>, shuffler: Shuffler): (Option<Card>, seq<Card>)
    requires IsShuffler(shuffler)
  {
    if deck == [] then (None, []) else DropWilds(Some(deck[0]), deck[1..], shuffler)
  }

  /**
   * The dropping loop ends on a card that is not wild (or on no card once
   * the deck is exhausted), loses only wild cards, and keeps every other
   * card; a wild card on top is always among the cards lost.
   */
  lemma {:induction false} DropWildsProperties(top: Option<Card>, deck: seq<Card>, shuffler: Shuffler)
    requires IsShuffler(shuffler)
    ensures var r := DropWilds(top, deck, shuffler);
      r.0.Some? ==> !IsWild(r.0.value)
    ensures var r := DropWilds(top, deck, shuffler);
      r.0.None? && top.Some? ==> r.1 == []
    ensures var r := DropWilds(top, deck, shuffler);
      multiset(Drawn(r.0)) + multiset(r.1) <= multiset(Drawn(top)) + multiset(deck)
    ensures var r := DropWilds(top, deck, shuffler);
      forall c: Card :: !IsWild(c) ==>
        (multiset(Drawn(r.0)) + multiset(r.1))[c] == (multiset(Drawn(top)) + multiset(deck))[c]
    ensures var r := DropWilds(top, deck, shuffler);
      top.Some? && IsWild(top.value) ==> multiset(Drawn(r.0)) + multiset(r.1) <= multiset(deck)
    decreases |deck|
  {
    if top.Some? && IsWild(top.value) {
      var d := shuffler(deck);
      ShufflerKeepsSize(shuffler, deck);
      if d != [] {
        assert d == [d[0]] + d[1..];
        assert multiset(d) == multiset{d[0]} + multiset(d[1..]);
        DropWildsProperties(Some(d[0]), d[1..], shuffler);
      }
    }
  }

  /** The opening flip of hand2.ts: a card that is not wild, and every card that is not wild is kept. */
  lemma EarlyFlipProperties(deck: seq<Card>, shuffler: Shuffler)
    requires IsShuffler(shuffler)
    ensures var r := EarlyFlip(deck, shuffler);
      r.0.Some? ==> !IsWild(r.0.value)
    ensures var r := EarlyFlip(deck, shuffler);
      r.0.None? ==> r.1 == []
    ensures var r := EarlyFlip(deck, shuffler);
      multiset(Drawn(r.0)) + multiset(r.1) <= multiset(deck)
    ensures var r := EarlyFlip(deck, shuffler);
      forall c: Card :: !IsWild(c) ==> (multiset(Drawn(r.0)) + multiset(r.1))[c] == multiset(deck)[c]
  {
    if deck != [] {
      DropWildsProperties(Some(deck[0]), deck[1..], shuffler);
      assert deck == [deck[0]] + deck[1..];
      assert multiset(deck) == multiset{deck[0]} + multiset(deck[1..]);
    }
  }

  /** A wild first card of the dealt deck never reaches the discard pile or the draw pile. */
  lemma EarlyFlipDropsWild(deck: seq<Card>, shuffler: Shuffler)
    requires IsShuffler(shuffler)
    ensures var r := EarlyFlip(deck, shuffler);
      deck != [] && IsWild(deck[0]) ==> multiset(Drawn(r.0)) + multiset(r.1) <= multiset(deck[1..])
  {
    if deck != [] {
      DropWildsProperties(Some(deck[0]), deck[1..], shuffler);
    }
  }

  /**
   * The discard flip of hand2.ts on the piles: the dealt card (or the
   * missing one) becomes the whole discard pile with size 1, and the loop
   * shuffles, deals and overwrites that single entry (src/model/hand2.ts:42-52).
   */
  method FlipDropping(deck: Pile, discard: Pile, shuffler: Shuffler) returns (top: Option<Card>)
    requires IsShuffler(shuffler)
    requires deck != discard && deck.Valid()
    modifies deck, discard
    ensures (top, deck.cards) == EarlyFlip(old(deck.cards), shuffler)
    ensures discard.cards == Drawn(top) && discard.size == 1
  {
    top := deck.Deal();
    discard.cards := Drawn(top);
    discard.size := 1;
    while top.Some? && IsWild(top.value)
      invariant DropWilds(top, deck.cards, shuffler) == EarlyFlip(old(deck.cards), shuffler)
      invariant discard.cards == Drawn(top) && discard.size == 1
      decreases |deck.cards| + (if top.Some? then 1 else 0)
    {
      ShufflerKeepsSize(shuffler, deck.cards);
      deck.Shuffle(shuffler);
      top := deck.Deal();
      discard.cards := Drawn(top);
    }
  }

  // ---------------------------------------------------------------------
  // The opening card's effect
  // ---------------------------------------------------------------------

  /** The piles, hands and first turn a new round starts with. */
  datatype Opened = Opened(hands: seq<seq<Card>>, draw: seq<Card>, discard: seq<Card>, first: int)

  /**
   * The end of setup in both versions (src/model/hand.ts:100-113,
   * src/model/hand2.ts:54-66): the rest of the deck becomes the draw pile,
   * the opening card the discard pile, the first turn follows from the
   * opening card, and a DRAW makes the first player take up to two cards
   * from the draw pile.
   */
  function ApplyOpening(hands: seq<seq<Card>>, top: Option<Card>, rest: seq<Card>, dealer: int, n: int): (r: Opened)
    requires 2 <= n && 0 <= dealer < n && |hands| == n
    ensures |r.hands| == n && 0 <= r.first < n
  {
    var first := OpeningTurn(top, dealer, n);
    if top.Some? && top.value.Draw? then
      var t := Take(2, |rest|);
      Opened(hands[first := hands[first] + rest[..t]], rest[t..], Drawn(top), first)
    else
      Opened(hands, rest, Drawn(top), first)
  }

  /**
   * The first turn as the opening discard calls for it: the seat after the
   * dealer, the one before it for a REVERSE, two after it for a SKIP.
   */
  predicate FirstTurnFits(r: Opened, dealer: int, n: int)
    requires n >= 2
  {
    && (r.discard != [] && r.discard[0].Reverse? ==> r.first == (dealer - 1 + n) % n)
    && (r.discard != [] && r.discard[0].Skip? ==> r.first == (dealer + 2) % n)
    && (r.discard == [] || !(r.discard[0].Reverse? || r.discard[0].Skip?) ==> r.first == (dealer + 1) % n)
  }

  /**
   * The opening card's effect: the discard pile is that card alone, the
   * first turn fits it, and only a DRAW changes a hand, the first player's,
   * by the front cards of the draw pile, two when there are two.
   */
  lemma ApplyOpeningEffect(hands: seq<seq<Card>>, top: Option<Card>, rest: seq<Card>, dealer: int, n: int)
    requires 2 <= n && 0 <= dealer < n && |hands| == n
    ensures var r := ApplyOpening(hands, top, rest, dealer, n);
      && r.discard == Drawn(top)
      && (top.Some? ==> !IsWild(top.value)) == (forall c :: c in r.discard ==> !IsWild(c))
      && FirstTurnFits(r, dealer, n)
      && (forall i :: 0 <= i < n && i != r.first ==> r.hands[i] == hands[i])
      && (top.Some? && top.value.Draw? ==>
            r.first == (dealer + 1) % n
            && r.hands[r.first] + r.draw == hands[r.first] + rest
            && (|rest| >= 2 ==> |r.hands[r.first]| == |hands[r.first]| + 2))
      && (!(top.Some? && top.value.Draw?) ==> r.hands == hands && r.draw == rest)
  {
    var r := ApplyOpening(hands, top, rest, dealer, n);
    if top.Some? && top.value.Draw? {
      var t := Take(2, |rest|);
      assert rest == rest[..t] + rest[t..];
    }
  }

  /** The opening card's effect only moves cards from the draw pile to a hand. */
  lemma ApplyOpeningConserves(hands: seq<seq<Card>>, top: Option<Card>, rest: seq<Card>, dealer: int, n: int)
    requires 2 <= n && 0 <= dealer < n && |hands| == n
    ensures var r := ApplyOpening(hands, top, rest, dealer, n);
      multiset(Flatten(r.hands)) + multiset(r.draw) + multiset(r.discard)
        == multiset(Flatten(hands)) + multiset(rest) + multiset(Drawn(top))
  {
    if top.Some? && top.value.Draw? {
      var first := OpeningTurn(top, dealer, n);
      var given := rest[..Take(2, |rest|)];
      assert rest == given + rest[Take(2, |rest|)..];
      FlattenAppend(hands, first, given);
    }
  }

  /**
   * The opening DRAW: two deals from the draw pile pushed onto the first
   * player's hand, where an empty pile gives nothing (src/model/hand.ts:111-112).
   */
  method DealOpeningPenalty(draw: Pile, hands: seq<seq<Card>>, i: int) returns (r: seq<seq<Card>>)
    requires 0 <= i < |hands| && draw.Valid()
    modifies draw
    ensures draw.Valid()
    ensures var t := Take(2, |old(draw.cards)|);
      r == hands[i := hands[i] + old(draw.cards)[..t]] && draw.cards == old(draw.cards)[t..]
  {
    var c1 := draw.Deal();
    var c2 := draw.Deal();
    var pile := old(draw.cards);
    assert Drawn(c1) + Drawn(c2) == pile[..Take(2, |pile|)];
    r := hands[i := hands[i] + (Drawn(c1) + Drawn(c2))];
  }

  /**
   * The end of setup on the piles: a new draw pile holding a copy of what
   * is left of the deck, with its size, the first turn, and the opening
   * DRAW (src/model/hand.ts:100-113, src/model/hand2.ts:54-66).
   */
  method OpenRound(deck: Pile, hands: seq<seq<Card>>, top: Option<Card>, dealer: int, n: int)
    returns (hs: seq<seq<Card>>, draw: Pile, current: int)
    requires 2 <= n && 0 <= dealer < n && |hands| == n
    ensures fresh(draw) && draw.Valid()
    ensures Opened(hs, draw.cards, Drawn(top), current) == ApplyOpening(hands, top, deck.cards, dealer, n)
  {
    draw := new Pile.Empty();
    draw.cards := deck.cards;
    draw.size := |draw.cards|;
    hs := hands;
    current := (dealer + 1) % n;
    if top.Some? && top.value.Reverse? {
      current := (dealer - 1 + n) % n;
    } else if top.Some? && top.value.Skip? {
      current := (dealer + 2) % n;
    } else if top.Some? && top.value.Draw? {
      hs := DealOpeningPenalty(draw, hs, current);
    }
  }
}
