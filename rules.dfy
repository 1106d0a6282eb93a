/**
 * The rules of a round that do not depend on the round's mutable state:
 * seat arithmetic, the opening card's effect, the playability test, the
 * penalty and reclaim draws, dealing and scoring (src/model/hand.ts and
 * src/model/hand2.ts).
 */
module Rules {
  import opened Results
  import opened Cards
  import opened Deck

  // ---------------------------------------------------------------------
  // Seats
  // ---------------------------------------------------------------------

  /**
   * `(cur + steps + n) % n`, the source's seat arithmetic. The dividend is
   * never negative, so the truncating remainder of the source and the
   * Euclidean remainder agree.
   */
  function Seat(cur: int, steps: int, n: int): (s: int)
    requires n >= 1 && cur + steps + n >= 0
    ensures 0 <= s < n
  {
    (cur + steps + n) % n
  }

  predicate IsDirection(d: int)
  {
    d == 1 || d == -1
  }

  /** The seat one place from `cur` in direction `dir`, going round the table. */
  function Step(cur: int, dir: int, n: int): (s: int)
    requires 0 <= cur < n && IsDirection(dir)
    ensures 0 <= s < n
  {
    if dir == 1 then (if cur == n - 1 then 0 else cur + 1)
    else (if cur == 0 then n - 1 else cur - 1)
  }

  /** The remainder of a dividend below 3n, by cases. */
  lemma ModSmall(x: int, n: int)
    requires n >= 1 && 0 <= x < 3 * n
    ensures x % n == if x < n then x else if x < 2 * n then x - n else x - 2 * n
  {
    var q, r := x / n, x % n;
    assert x == q * n + r && 0 <= r < n;
    if q < 0 {
      assert false;
    } else if q > 2 {
      assert false;
    }
    assert 0 <= q <= 2;
    if q == 0 {
      assert r == x;
    } else if q == 1 {
      assert r == x - n;
    } else {
      assert r == x - 2 * n;
    }
  }

  /** Moving `dir` seats with the source's arithmetic is one step round the table. */
  lemma SeatOneStep(cur: int, dir: int, n: int)
    requires 0 <= cur < n && IsDirection(dir)
    ensures Seat(cur, dir, n) == Step(cur, dir, n)
  {
    ModSmall(cur + dir + n, n);
  }

  /** Moving `2 * dir` seats is two steps round the table. */
  lemma SeatTwoSteps(cur: int, dir: int, n: int)
    requires 2 <= n && 0 <= cur < n && IsDirection(dir)
    ensures Seat(cur, 2 * dir, n) == Step(Step(cur, dir, n), dir, n)
  {
    ModSmall(cur + 2 * dir + n, n);
  }

  /** A step always leaves the seat when there are at least two players. */
  lemma StepMoves(cur: int, dir: int, n: int)
    requires 2 <= n && 0 <= cur < n && IsDirection(dir)
    ensures Step(cur, dir, n) != cur
    ensures Step(Step(cur, dir, n), -dir, n) == cur
  {
  }

  // ---------------------------------------------------------------------
  // Turn order after a play
  // ---------------------------------------------------------------------

  /**
   * The turn and direction after `card` is played from seat `turn`
   * (src/model/hand.ts:221-280): SKIP, DRAW and WILD DRAW move two seats,
   * REVERSE with other than two players moves one seat against the old
   * direction and flips it, REVERSE with two players changes nothing, WILD
   * and NUMBERED move one seat.
   */
  function NextTurn(card: Card, turn: int, dir: int, n: int): (r: (int, int))
    requires 2 <= n && 0 <= turn < n && IsDirection(dir)
    ensures 0 <= r.0 < n && IsDirection(r.1)
  {
    match card
    case Skip(_) => (Seat(turn, 2 * dir, n), dir)
    case Draw(_) => (Seat(turn, 2 * dir, n), dir)
    case WildDraw(_) => (Seat(turn, 2 * dir, n), dir)
    case Reverse(_) => if n != 2 then (Seat(turn, -dir, n), -dir) else (turn, dir)
    case _ => (Seat(turn, dir, n), dir)
  }

  /** How many seats a card moves the turn, in the direction that holds after it. */
  function SeatsMoved(card: Card, n: int): nat
  {
    if card.Skip? || card.Draw? || card.WildDraw? then 2
    else if card.Reverse? && n == 2 then 0
    else 1
  }

  /** The turn after a play, stated as steps round the table. */
  lemma {:induction false} NextTurnSteps(card: Card, turn: int, dir: int, n: int)
    requires 2 <= n && 0 <= turn < n && IsDirection(dir)
    ensures var r := NextTurn(card, turn, dir, n);
      && r.1 == (if card.Reverse? && n != 2 then -dir else dir)
      && r.0 == (if SeatsMoved(card, n) == 2 then Step(Step(turn, r.1, n), r.1, n)
                 else if SeatsMoved(card, n) == 1 then Step(turn, r.1, n)
                 else turn)
  {
    if card.Skip? || card.Draw? || card.WildDraw? {
      SeatTwoSteps(turn, dir, n);
    } else if card.Reverse? {
      if n != 2 {
        SeatOneStep(turn, -dir, n);
      }
    } else {
      SeatOneStep(turn, dir, n);
    }
  }

  /**
   * With three or more players every play hands the turn to someone else;
   * with two players SKIP, DRAW, WILD DRAW and REVERSE give the player
   * another turn.
   */
  lemma TurnChanges(card: Card, turn: int, dir: int, n: int)
    requires 2 <= n && 0 <= turn < n && IsDirection(dir)
    ensures n >= 3 ==> NextTurn(card, turn, dir, n).0 != turn
    ensures n == 2 ==> (NextTurn(card, turn, dir, n).0 == turn <==> SeatsMoved(card, n) != 1)
  {
    NextTurnSteps(card, turn, dir, n);
    var d := NextTurn(card, turn, dir, n).1;
    StepMoves(turn, d, n);
    StepMoves(Step(turn, d, n), d, n);
  }

  /**
   * The player in turn after the opening card is flipped
   * (src/model/hand.ts:106-111, src/model/hand2.ts:59-63).
   */
  function OpeningTurn(top: Option<Card>, dealer: int, n: int): (t: int)
    requires 2 <= n && 0 <= dealer < n
    ensures 0 <= t < n
  {
    if top.Some? && top.value.Reverse? then (dealer - 1 + n) % n
    else if top.Some? && top.value.Skip? then (dealer + 2) % n
    else (dealer + 1) % n
  }

  /**
   * The opening turn as steps from the dealer, and how it relates to the
   * dealer playing the opening card: for a card that is not wild it agrees
   * except for DRAW (whose victim keeps the turn) and REVERSE with two
   * players (which does not hand the dealer the turn). The direction is
   * never flipped.
   */
  lemma OpeningTurnSteps(top: Option<Card>, dealer: int, n: int)
    requires 2 <= n && 0 <= dealer < n
    ensures top.Some? && top.value.Reverse? ==> OpeningTurn(top, dealer, n) == Step(dealer, -1, n)
    ensures top.Some? && top.value.Skip? ==> OpeningTurn(top, dealer, n) == Step(Step(dealer, 1, n), 1, n)
    ensures !(top.Some? && (top.value.Reverse? || top.value.Skip?)) ==> OpeningTurn(top, dealer, n) == Step(dealer, 1, n)
    ensures top.Some? && !IsWild(top.value) && !top.value.Draw? && !(top.value.Reverse? && n == 2) ==>
      OpeningTurn(top, dealer, n) == NextTurn(top.value, dealer, 1, n).0
    ensures top.Some? && top.value.Draw? ==> OpeningTurn(top, dealer, n) != NextTurn(top.value, dealer, 1, n).0
  {
    ModSmall(dealer - 1 + n, n);
    ModSmall(dealer + 1, n);
    ModSmall(dealer + 2, n);
    SeatOneStep(dealer, 1, n);
    SeatTwoSteps(dealer, 1, n);
    ModSmall(dealer + 2 + n, n);
    StepMoves(Step(dealer, 1, n), 1, n);
    if top.Some? {
      NextTurnSteps(top.value, dealer, 1, n);
    }
  }

  // ---------------------------------------------------------------------
  // Playability (canPlay, src/model/hand.ts:161-188)
  // ---------------------------------------------------------------------

  /** The hand holds a card whose colour is defined and equals the top's colour. */
  predicate HoldsColorOf(hand: seq<Card>, top: Card)
  {
    exists i :: 0 <= i < |hand| && ColorOf(hand[i]).Some? && ColorOf(hand[i]) == ColorOf(top)
  }

  /**
   * The generic match: same colour field (two undefined colours compare
   * equal), same defined number, same type other than NUMBERED, or a wild card.
   */
  predicate Matches(card: Card, top: Card)
  {
    || ColorOf(card) == ColorOf(top)
    || (NumberOf(card).Some? && NumberOf(card) == NumberOf(top))
    || (KindOf(card) == KindOf(top) && KindOf(card) != NumberedKind)
    || IsWild(card)
  }

  /**
   * Whether the card at `idx` may be played on `top` by a player holding
   * `hand`, in a round that has not ended. A negative index is never
   * playable and anything is playable on an empty discard pile. The source
   * dereferences an undefined card when the index is past the hand and the
   * pile has a top, so that case is excluded.
   */
  predicate Playable(hand: seq<Card>, idx: int, top: Option<Card>)
    requires idx < |hand| || top.None?
  {
    && 0 <= idx
    && (top.None? ||
        (&& !(hand[idx].WildDraw? && HoldsColorOf(hand, top.value))
         && Matches(hand[idx], top.value)))
  }

  /**
   * The no-bluff rule: on a discard top, a WILD DRAW is playable exactly when
   * the hand holds no card of the top's colour, and every other card is
   * playable exactly when it matches the top.
   */
  lemma PlayableOnTop(hand: seq<Card>, idx: int, top: Card)
    requires 0 <= idx < |hand|
    ensures hand[idx].WildDraw? ==> (Playable(hand, idx, Some(top)) <==> !HoldsColorOf(hand, top))
    ensures !hand[idx].WildDraw? ==> (Playable(hand, idx, Some(top)) <==> Matches(hand[idx], top))
    ensures hand[idx].Wild? ==> Playable(hand, idx, Some(top))
  {
  }

  /**
   * A card of a colour other than the top's, of a different number and type,
   * is never playable; a card of the top's colour that is not a WILD DRAW
   * always is.
   */
  lemma PlayableByColor(hand: seq<Card>, idx: int, top: Card)
    requires 0 <= idx < |hand|
    ensures (!IsWild(hand[idx]) && ColorOf(hand[idx]) != ColorOf(top) && NumberOf(hand[idx]) != NumberOf(top)
             && KindOf(hand[idx]) != KindOf(top)) ==> !Playable(hand, idx, Some(top))
    ensures !hand[idx].WildDraw? && ColorOf(hand[idx]) == ColorOf(top) ==> Playable(hand, idx, Some(top))
  {
  }

  /**
   * The checks `play` adds to playability (src/model/hand.ts:202): a wild
   * card needs a colour argument and a card with a colour must not be given
   * one. The argument "" stands for an absent colour.
   */
  predicate ColorArgumentOk(card: Card, color: string)
  {
    !(IsWild(card) && color == "") && !(ColorOf(card).Some? && color != "")
  }

  /**
   * A wild card once given a colour cannot be played again: it has a colour,
   * so it may not be given one, and as a wild card it needs one.
   */
  lemma ColoredWildNeverAccepted(card: Card, color: string)
    requires IsWild(card) && ColorOf(card).Some?
    ensures !ColorArgumentOk(card, color)
  {
  }

  /**
   * A non-wild card is accepted without a colour and refused with one; a
   * colourless wild card is accepted with any non-empty colour.
   */
  lemma ColorArgumentCases(card: Card, color: string)
    ensures !IsWild(card) ==> (ColorArgumentOk(card, color) <==> color == "")
    ensures IsWild(card) && ColorOf(card).None? ==> (ColorArgumentOk(card, color) <==> color != "")
  {
  }

  // ---------------------------------------------------------------------
  // Scoring (src/model/hand.ts:115-134)
  // ---------------------------------------------------------------------

  /** Face value for a numbered card, 20 for an action card, 50 for a wild card. */
  function CardPoints(c: Card): (p: nat)
    ensures c.Numbered? ==> p == c.number
    ensures (c.Skip? || c.Reverse? || c.Draw?) ==> p == 20
    ensures IsWild(c) ==> p == 50
  {
    match c
    case Numbered(_, number) => number
    case Skip(_) => 20
    case Reverse(_) => 20
    case Draw(_) => 20
    case Wild(_) => 50
    case WildDraw(_) => 50
  }

  function CardsScore(s: seq<Card>): nat
  {
    if s == [] then 0 else CardsScore(s[..|s| - 1]) + CardPoints(s[|s| - 1])
  }

  /** All players' cards, player by player. */
  function Flatten(hands: seq<seq<Card>>): seq<Card>
  {
    if hands == [] then [] else Flatten(hands[..|hands| - 1]) + hands[|hands| - 1]
  }

  function HandsScore(hands: seq<seq<Card>>): nat
  {
    if hands == [] then 0 else HandsScore(hands[..|hands| - 1]) + CardsScore(hands[|hands| - 1])
  }

  function TotalCards(hands: seq<seq<Card>>): nat
  {
    if hands == [] then 0 else TotalCards(hands[..|hands| - 1]) + |hands[|hands| - 1]|
  }

  lemma {:induction false} CardsScoreAppend(a: seq<Card>, b: seq<Card>)
    ensures CardsScore(a + b) == CardsScore(a) + CardsScore(b)
    decreases |b|
  {
    if b == [] {
      assert a + b == a;
    } else {
      assert (a + b)[..|a + b| - 1] == a + b[..|b| - 1];
      CardsScoreAppend(a, b[..|b| - 1]);
    }
  }

  /** The score is the score of all remaining cards taken together. */
  lemma {:induction false} HandsScoreFlatten(hands: seq<seq<Card>>)
    ensures HandsScore(hands) == CardsScore(Flatten(hands))
    ensures TotalCards(hands) == |Flatten(hands)|
  {
    if hands != [] {
      HandsScoreFlatten(hands[..|hands| - 1]);
      CardsScoreAppend(Flatten(hands[..|hands| - 1]), hands[|hands| - 1]);
    }
  }

  /** Scores of standard cards are at most 50 per card, and zero only for zero cards. */
  lemma {:induction false} CardsScoreBounds(s: seq<Card>)
    requires forall c :: c in s ==> (c.Numbered? ==> c.number <= 9)
    ensures CardsScore(s) <= 50 * |s|
    ensures CardsScore(s) == 0 <==> forall c :: c in s ==> c.Numbered? && c.number == 0
  {
    if s != [] {
      var init := s[..|s| - 1];
      assert forall c :: c in init ==> c in s;
      CardsScoreBounds(init);
      assert forall c :: c in s ==> c in init || c == s[|s| - 1];
    }
  }

  /** Reordering cards does not change their score. */
  lemma {:induction false} CardsScorePermutation(a: seq<Card>, b: seq<Card>)
    requires multiset(a) == multiset(b)
    ensures CardsScore(a) == CardsScore(b)
    decreases |a|
  {
    if a != [] {
      var x := a[|a| - 1];
      assert a == a[..|a| - 1] + [x];
      assert x in multiset(a);
      assert x in multiset(b);
      var j :| 0 <= j < |b| && b[j] == x;
      var rest := b[..j] + b[j + 1..];
      assert b == b[..j] + [x] + b[j + 1..];
      assert a == a[..|a| - 1] + [x];
      assert multiset(b) == multiset(b[..j]) + multiset{x} + multiset(b[j + 1..]);
      assert multiset(rest) == multiset(b[..j]) + multiset(b[j + 1..]);
      assert multiset(a) == multiset(a[..|a| - 1]) + multiset{x};
      assert multiset(a[..|a| - 1]) == multiset(a) - multiset{x};
      assert multiset(rest) == multiset(b) - multiset{x};
      CardsScorePermutation(a[..|a| - 1], rest);
      CardsScoreAppend(b[..j] + [x], b[j + 1..]);
      CardsScoreAppend(b[..j], [x]);
      CardsScoreAppend(b[..j], b[j + 1..]);
      assert CardsScore([x]) == CardPoints(x) by {
        assert [x][..0] == [];
      }
    } else {
      assert |b| == |multiset(b)| == 0;
    }
  }

  /** Adding a card to one player's hand. */
  lemma {:induction false} TotalCardsUpdate(hands: seq<seq<Card>>, i: int, h: seq<Card>)
    requires 0 <= i < |hands|
    ensures TotalCards(hands[i := h]) == TotalCards(hands) - |hands[i]| + |h|
  {
    if i < |hands| - 1 {
      assert hands[i := h][..|hands| - 1] == hands[..|hands| - 1][i := h];
      TotalCardsUpdate(hands[..|hands| - 1], i, h);
    } else {
      assert hands[i := h][..|hands| - 1] == hands[..|hands| - 1];
    }
  }
  /** Adding cards to one hand adds exactly those cards to all hands together. */
  lemma {:induction false} FlattenAppend(hands: seq<seq<Card>>, i: int, x: seq<Card>)
    requires 0 <= i < |hands|
    ensures multiset(Flatten(hands[i := hands[i] + x])) == multiset(Flatten(hands)) + multiset(x)
  {
    var m := |hands| - 1;
    var hs := hands[i := hands[i] + x];
    var a, a' := Flatten(hands[..m]), Flatten(hs[..m]);
    assert Flatten(hs) == a' + hs[m];
    assert Flatten(hands) == a + hands[m];
    if i < m {
      assert hs[..m] == hands[..m][i := hands[..m][i] + x];
      FlattenAppend(hands[..m], i, x);
      assert hs[m] == hands[m];
    } else {
      assert hs[..m] == hands[..m];
      assert hs[m] == hands[m] + x;
    }
  }




  // ---------------------------------------------------------------------
  // Dealing (src/model/hand.ts:71-80, src/model/hand2.ts:30-39)
  // ---------------------------------------------------------------------

  /** The cards dealt per player when none is given (src/model/hand.ts:30, src/model/hand2.ts:18). */
  const DefaultCardsPerPlayer := 7

  /** The cards dealt per player: the given number, or the default. */
  function CardsPerPlayerOr(given: Option<int>): int
  {
    if given.Some? then given.value else DefaultCardsPerPlayer
  }

  /** The card a draw gave, as a sequence of zero or one cards. */
  function Drawn(c: Option<Card>): (s: seq<Card>)
    ensures |s| == if c.Some? then 1 else 0
    ensures c.Some? ==> s[0] == c.value
  {
    if c.Some? then [c.value] else []
  }

  /** How many of `k` requested cards a pile of `avail` cards can give. */
  function Take(k: int, avail: nat): (t: nat)
    ensures t <= avail && (k >= 0 ==> t <= k)
    ensures k > 0 ==> t == avail || t == k
    ensures k <= 0 ==> t == 0
  {
    if k <= 0 then 0 else if k < avail then k else avail
  }

  /**
   * The hands of the first `players` players after each was dealt `k` cards
   * from the front of `deck` while cards lasted, and what is left of it.
   */
  function DealHands(deck: seq<Card>, players: nat, k: int): (r: (seq<seq<Card>>, seq<Card>))
    ensures |r.0| == players
  {
    if players == 0 then ([], deck)
    else
      var (hands, rest) := DealHands(deck, players - 1, k);
      var t := Take(k, |rest|);
      (hands + [rest[..t]], rest[t..])
  }

  /** Dealing to one more player deals to the others first, then to that player from what is left. */
  lemma DealStep(deck: seq<Card>, m: nat, k: int)
    ensures var prev := DealHands(deck, m, k);
      var t := Take(k, |prev.1|);
      DealHands(deck, m + 1, k) == (prev.0 + [prev.1[..t]], prev.1[t..])
  {
  }

  /** One more hand at the end adds its cards at the end of the flattened cards. */
  lemma FlattenSnoc(hands: seq<seq<Card>>, h: seq<Card>)
    ensures Flatten(hands + [h]) == Flatten(hands) + h
  {
    assert (hands + [h])[..|hands|] == hands;
  }

  /** Dealing only moves cards: the hands in order followed by the rest are the deck. */
  lemma {:induction false} DealConserves(deck: seq<Card>, players: nat, k: int)
    ensures Flatten(DealHands(deck, players, k).0) + DealHands(deck, players, k).1 == deck
  {
    if players > 0 {
      var m: nat := players - 1;
      DealStep(deck, m, k);
      DealConserves(deck, m, k);
      var (hands, rest) := DealHands(deck, m, k);
      var t := Take(k, |rest|);
      FlattenSnoc(hands, rest[..t]);
      assert rest == rest[..t] + rest[t..];
    }
  }

  /** The multiples of `k` below the `n`-th one, and how they grow. */
  lemma MulBounds(i: nat, n: nat, k: nat)
    requires i < n
    ensures 0 <= i * k <= (i + 1) * k <= n * k
    ensures (i + 1) * k == i * k + k
  {
  }

  /** The front and the back of a suffix of a sequence are slices of the sequence. */
  lemma SuffixSlices(deck: seq<Card>, a: nat, k: nat)
    requires a + k <= |deck|
    ensures deck[a..][..k] == deck[a..a + k] && deck[a..][k..] == deck[a + k..]
  {
  }

  /** With enough cards, what is left after dealing `k` to each player starts at `players * k`. */
  lemma {:induction false} DealFullRest(deck: seq<Card>, players: nat, k: nat)
    requires players * k <= |deck|
    ensures DealHands(deck, players, k).1 == deck[players * k..]
  {
    if players > 0 {
      var m: nat := players - 1;
      MulBounds(m, players, k);
      DealStep(deck, m, k);
      DealFullRest(deck, m, k);
      SuffixSlices(deck, m * k, k);
    }
  }

  /** With enough cards, player `i` holds the `k` cards from position `i * k` on. */
  lemma {:induction false} DealFullHand(deck: seq<Card>, players: nat, k: nat, i: nat)
    requires players * k <= |deck| && i < players
    ensures 0 <= i * k <= (i + 1) * k <= |deck|
    ensures DealHands(deck, players, k).0[i] == deck[i * k..(i + 1) * k]
  {
    var m: nat := players - 1;
    MulBounds(m, players, k);
    MulBounds(i, players, k);
    DealStep(deck, m, k);
    if i < m {
      DealFullHand(deck, m, k, i);
    } else {
      DealFullRest(deck, m, k);
      SuffixSlices(deck, m * k, k);
    }
  }

  /**
   * With enough cards every player gets exactly `k`: player i holds the
   * cards at positions i * k .. (i + 1) * k of the deck.
   */
  lemma DealFull(deck: seq<Card>, players: nat, k: nat)
    requires players * k <= |deck|
    ensures DealHands(deck, players, k).1 == deck[players * k..]
    ensures forall i :: 0 <= i < players ==> DealHands(deck, players, k).0[i] == deck[i * k..(i + 1) * k]
  {
    DealFullRest(deck, players, k);
    forall i {:trigger DealHands(deck, players, k).0[i]} | 0 <= i < players
      ensures 0 <= i * k <= (i + 1) * k <= |deck| && DealHands(deck, players, k).0[i] == deck[i * k..(i + 1) * k]
    {
      DealFullHand(deck, players, k, i);
    }
  }

  // ---------------------------------------------------------------------
  // Drawing with reclaim (src/model/hand.ts:300-317, 363-382)
  // ---------------------------------------------------------------------

  /** The draw and discard piles of a round. */
  datatype Piles = Piles(draw: seq<Card>, discard: seq<Card>)

  /**
   * Cards that can still be drawn: the draw pile and the discard pile
   * without its top.
   */
  function Available(p: Piles): nat
  {
    |p.draw| + (if p.discard == [] then 0 else |p.discard| - 1)
  }

  /**
   * When the draw pile is empty: the discard pile without its top, shuffled,
   * becomes the draw pile, and the top alone stays as the discard pile. An
   * empty discard pile stays empty.
   */
  function Reclaim(p: Piles, shuffler: Shuffler): (r: Piles)
    ensures p.discard != [] ==> r.discard == [p.discard[|p.discard| - 1]]
    ensures p.discard == [] ==> r.discard == []
    ensures IsShuffler(shuffler) ==>
      multiset(r.draw) + multiset(r.discard) == multiset(p.discard)
  {
    if p.discard == [] then Piles(shuffler([]), [])
    else
      var rest := p.discard[..|p.discard| - 1];
      var top := p.discard[|p.discard| - 1];
      assert p.discard == rest + [top];
      Piles(shuffler(rest), [top])
  }

  /**
   * One card for a player: the front of the draw pile, or, when it is empty,
   * the front of the reclaimed draw pile, if there is one.
   */
  function DrawOne(p: Piles, shuffler: Shuffler): (r: (Option<Card>, Piles))
    ensures p.draw != [] ==> r == (Some(p.draw[0]), Piles(p.draw[1..], p.discard))
    ensures IsShuffler(shuffler) ==>
      multiset(r.1.draw) + multiset(r.1.discard) + (if r.0.Some? then multiset{r.0.value} else multiset{})
        == multiset(p.draw) + multiset(p.discard)
  {
    if p.draw != [] then
      assert p.draw == [p.draw[0]] + p.draw[1..];
      (Some(p.draw[0]), Piles(p.draw[1..], p.discard))
    else
      var q := Reclaim(p, shuffler);
      if q.draw == [] then (None, q)
      else
        assert q.draw == [q.draw[0]] + q.draw[1..];
        (Some(q.draw[0]), Piles(q.draw[1..], q.discard))
  }

  /** A card is drawn exactly when one is available, and then one fewer is. */
  lemma DrawOneAvailable(p: Piles, shuffler: Shuffler)
    requires IsShuffler(shuffler)
    ensures var (c, q) := DrawOne(p, shuffler);
      && (c.Some? <==> Available(p) > 0)
      && Available(q) == (if c.Some? then Available(p) - 1 else 0)
      && (p.discard != [] ==> q.discard != [] && q.discard[|q.discard| - 1] == p.discard[|p.discard| - 1])
  {
    if p.draw == [] {
      var q := Reclaim(p, shuffler);
      assert |q.draw| == |multiset(q.draw)|;
      if p.discard == [] {
        assert |multiset(q.draw)| == 0;
      } else {
        assert |multiset(q.draw)| + 1 == |multiset(p.discard)|;
      }
    }
  }

  /** A shuffler keeps the number of cards. */
  lemma ShufflerKeepsSize(shuffler: Shuffler, s: seq<Card>)
    requires IsShuffler(shuffler)
    ensures |shuffler(s)| == |s|
  {
    assert |multiset(shuffler(s))| == |shuffler(s)|;
  }

  /** A single draw moves at most one card out of the piles and loses none. */
  lemma DrawOneSize(p: Piles, shuffler: Shuffler)
    requires IsShuffler(shuffler)
    ensures var r := DrawOne(p, shuffler);
      |r.1.draw| + |r.1.discard| + (if r.0.Some? then 1 else 0) == |p.draw| + |p.discard|
  {
    var r := DrawOne(p, shuffler);
    var m := multiset(r.1.draw) + multiset(r.1.discard) + (if r.0.Some? then multiset{r.0.value} else multiset{});
    assert m == multiset(p.draw) + multiset(p.discard);
    assert |m| == |r.1.draw| + |r.1.discard| + (if r.0.Some? then 1 else 0);
  }

  /** The cards `k` successive single draws give, and the piles afterwards. */
  function DrawMany(p: Piles, shuffler: Shuffler, k: nat): (seq<Card>, Piles)
  {
    if k == 0 then ([], p)
    else
      var (cards, q) := DrawMany(p, shuffler, k - 1);
      var (c, q') := DrawOne(q, shuffler);
      (if c.Some? then cards + [c.value] else cards, q')
  }

  /**
   * Whether one of `k` successive draws finds the draw pile empty and so
   * reclaims the discard pile, which resets the discard pile's size to 1
   * (src/model/hand.ts:311).
   */
  function DrawManyReclaims(p: Piles, shuffler: Shuffler, k: nat): bool
  {
    k > 0 && (DrawManyReclaims(p, shuffler, k - 1) || DrawMany(p, shuffler, k - 1).1.draw == [])
  }

  /**
   * While the draw pile holds at least `k` cards, `k` draws take its front
   * `k` cards in order and leave the discard pile alone.
   */
  lemma {:induction false} DrawManyFromFront(p: Piles, shuffler: Shuffler, k: nat)
    requires k <= |p.draw|
    ensures DrawMany(p, shuffler, k) == (p.draw[..k], Piles(p.draw[k..], p.discard))
  {
    if k > 0 {
      var j: nat := k - 1;
      DrawManyFromFront(p, shuffler, j);
      DrawManyStep(p, shuffler, j);
      var q := Piles(p.draw[j..], p.discard);
      assert q.draw != [] && q.draw[0] == p.draw[j] && q.draw[1..] == p.draw[k..];
      assert DrawOne(q, shuffler) == (Some(p.draw[j]), Piles(p.draw[k..], p.discard));
      assert p.draw[..k] == p.draw[..j] + [p.draw[j]];
    }
  }

  /** While the draw pile holds at least `k` cards, none of `k` draws reclaims the discard pile. */
  lemma {:induction false} DrawManyNoReclaim(p: Piles, shuffler: Shuffler, k: nat)
    requires k <= |p.draw|
    ensures !DrawManyReclaims(p, shuffler, k)
  {
    if k > 0 {
      var j: nat := k - 1;
      DrawManyNoReclaim(p, shuffler, j);
      DrawManyFromFront(p, shuffler, j);
      assert DrawMany(p, shuffler, j).1.draw == p.draw[j..];
    }
  }

  /** One more draw appends the card it gives, if any, and leaves the piles it leaves. */
  lemma DrawManyStep(p: Piles, shuffler: Shuffler, j: nat)
    ensures var prev := DrawMany(p, shuffler, j);
      var next := DrawOne(prev.1, shuffler);
      DrawMany(p, shuffler, j + 1) == (prev.0 + Drawn(next.0), next.1)
  {
    var prev := DrawMany(p, shuffler, j);
    var next := DrawOne(prev.1, shuffler);
    if next.0.None? {
      assert prev.0 + Drawn(next.0) == prev.0;
    }
  }

  /** `k` draws give `k` cards or all that are available. */
  lemma {:induction false} DrawManyCount(p: Piles, shuffler: Shuffler, k: nat)
    requires IsShuffler(shuffler)
    ensures |DrawMany(p, shuffler, k).0| == Take(k, Available(p))
    ensures Available(DrawMany(p, shuffler, k).1) == Available(p) - |DrawMany(p, shuffler, k).0|
  {
    if k > 0 {
      var j: nat := k - 1;
      var prev := DrawMany(p, shuffler, j);
      DrawManyStep(p, shuffler, j);
      DrawOneAvailable(prev.1, shuffler);
      DrawManyCount(p, shuffler, j);
    }
  }

  /** Drawing moves cards only: the piles before are the piles after plus the cards drawn. */
  lemma {:induction false} DrawManyConserves(p: Piles, shuffler: Shuffler, k: nat)
    requires IsShuffler(shuffler)
    ensures var r := DrawMany(p, shuffler, k);
      multiset(r.1.draw) + multiset(r.1.discard) + multiset(r.0) == multiset(p.draw) + multiset(p.discard)
  {
    if k > 0 {
      var j: nat := k - 1;
      var prev := DrawMany(p, shuffler, j);
      var one := DrawOne(prev.1, shuffler);
      var after, drawn := multiset(one.1.draw) + multiset(one.1.discard), multiset(Drawn(one.0));
      var mid, held := multiset(prev.1.draw) + multiset(prev.1.discard), multiset(prev.0);
      var start := multiset(p.draw) + multiset(p.discard);
      DrawOneConserves(prev.1, shuffler);
      DrawManyConserves(p, shuffler, j);
      UnionShift(after, drawn, held, mid, start);
      DrawManyStep(p, shuffler, j);
      assert multiset(prev.0 + Drawn(one.0)) == held + drawn;
    } else {
      assert DrawMany(p, shuffler, k) == ([], p);
      assert multiset(DrawMany(p, shuffler, k).0) == multiset{};
    }
  }

  /** Cards that moved from one place to another, then on to a third, are all accounted for. */
  lemma UnionShift(after: multiset<Card>, drawn: multiset<Card>, held: multiset<Card>, mid: multiset<Card>, start: multiset<Card>)
    requires after + drawn == mid && mid + held == start
    ensures after + (held + drawn) == start
  {
  }

  /** A single draw moves the card it gives, if any, out of the piles and loses none. */
  lemma DrawOneConserves(p: Piles, shuffler: Shuffler)
    requires IsShuffler(shuffler)
    ensures var r := DrawOne(p, shuffler);
      multiset(r.1.draw) + multiset(r.1.discard) + multiset(Drawn(r.0)) == multiset(p.draw) + multiset(p.discard)
  {
    var r := DrawOne(p, shuffler);
    assert multiset(Drawn(r.0)) == if r.0.Some? then multiset{r.0.value} else multiset{};
  }

  /** Drawing keeps the number of cards: the piles lose what the player gains. */
  lemma DrawManySize(p: Piles, shuffler: Shuffler, k: nat)
    requires IsShuffler(shuffler)
    ensures var r := DrawMany(p, shuffler, k);
      |r.1.draw| + |r.1.discard| + |r.0| == |p.draw| + |p.discard|
  {
    var r := DrawMany(p, shuffler, k);
    DrawManyConserves(p, shuffler, k);
    var m := multiset(r.1.draw) + multiset(r.1.discard) + multiset(r.0);
    assert |m| == |r.1.draw| + |r.1.discard| + |r.0|;
  }

  /** The penalty a card gives the next player: 2 for DRAW, 4 for WILD DRAW. */
  function Penalty(card: Card): (k: nat)
    ensures k > 0 <==> card.Draw? || card.WildDraw?
  {
    if card.Draw? then 2 else if card.WildDraw? then 4 else 0
  }

  /** Removing the card at `idx` from a hand. */
  function Remove(hand: seq<Card>, idx: int): (r: seq<Card>)
    requires 0 <= idx < |hand|
    ensures |r| == |hand| - 1
    ensures multiset(r) + multiset{hand[idx]} == multiset(hand)
    ensures forall i :: 0 <= i < idx ==> r[i] == hand[i]
    ensures forall i :: idx <= i < |r| ==> r[i] == hand[i + 1]
  {
    assert hand == hand[..idx] + [hand[idx]] + hand[idx + 1..];
    hand[..idx] + hand[idx + 1..]
  }
}
