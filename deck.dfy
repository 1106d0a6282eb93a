/**
 * Piles of cards and the standard 108-card deck (src/model/deck.ts).
 */
module Deck {
  import opened Results
  import opened Cards

  /**
   * A shuffler permutes a card sequence. The source passes the array to a
   * function that reorders it in place; here the reordered sequence is the
   * function's result.
   */
  type Shuffler = seq<Card> -> seq<Card>

  /** A shuffler only reorders: it keeps every card and adds none. */
  ghost predicate IsShuffler(shuffler: Shuffler)
  {
    forall s :: multiset(shuffler(s)) == multiset(s)
  }

  /**
   * The colours in the order createInitialDeck walks them: Red, Green, Blue,
   * Yellow, as `ColorsAt` states. The list is chosen through `ColorsAt`
   * rather than written as the literal so that the verifier does not unroll
   * the whole standard deck wherever `Colors` is in scope; the deck's facts
   * are proved once, by the lemmas below, from `ColorsAt`.
   */
  const Colors: seq<Color> :=
    assert ColorsAt([Red, Green, Blue, Yellow]);
    var cs :| ColorsAt(cs); cs

  /** The colour list of createInitialDeck, stated position by position. */
  predicate ColorsAt(cs: seq<Color>)
  {
    |cs| == 4 && cs[0] == Red && cs[1] == Green && cs[2] == Blue && cs[3] == Yellow
  }

  /** Two copies of each numbered card 1 .. upTo - 1 of one colour, in increasing order. */
  function NumberPairs(c: Color, upTo: nat): seq<Card>
  {
    if upTo <= 1 then []
    else NumberPairs(c, upTo - 1) + [Numbered(c, upTo - 1), Numbered(c, upTo - 1)]
  }

  /** One past the highest card number. */
  const NumberBound: nat := 10

  /** The numbered cards of one colour: one 0 and two of each of 1 .. 9. */
  function NumberedSuit(c: Color): seq<Card>
  {
    [Numbered(c, 0)] + NumberPairs(c, NumberBound)
  }

  /** The action cards of one colour: two each of SKIP, REVERSE and DRAW. */
  function ActionSuit(c: Color): seq<Card>
  {
    [Skip(c), Skip(c), Reverse(c), Reverse(c), Draw(c), Draw(c)]
  }

  function NumberedCards(cs: seq<Color>): seq<Card>
  {
    if cs == [] then [] else NumberedCards(cs[..|cs| - 1]) + NumberedSuit(cs[|cs| - 1])
  }

  function ActionCards(cs: seq<Color>): seq<Card>
  {
    if cs == [] then [] else ActionCards(cs[..|cs| - 1]) + ActionSuit(cs[|cs| - 1])
  }

  /** Four colourless WILD and four colourless WILD DRAW cards. */
  function WildCards(): seq<Card>
  {
    [Wild(None), Wild(None), Wild(None), Wild(None),
     WildDraw(None), WildDraw(None), WildDraw(None), WildDraw(None)]
  }

  /** The numbered cards, then the action cards of the given colours, then the wild cards. */
  function DeckOf(cs: seq<Color>): seq<Card>
  {
    NumberedCards(cs) + ActionCards(cs) + WildCards()
  }

  /** The deck createInitialDeck builds, in the order it builds it. */
  function StandardDeck(): seq<Card>
  {
    DeckOf(Colors)
  }

  /** No colour occurs twice. */
  predicate Distinct(cs: seq<Color>)
  {
    forall i, j :: 0 <= i < j < |cs| ==> cs[i] != cs[j]
  }

  /** How many copies of the numbered card with number k a colour has. */
  function NumberCopies(k: nat): nat
  {
    if k == 0 then 1 else if 1 <= k <= 9 then 2 else 0
  }

  /** How many cards of `s` satisfy `p` (the length of `s.filter(p)`). */
  function CountWhere(s: seq<Card>, p: Card -> bool): nat
  {
    if s == [] then 0 else CountWhere(s[..|s| - 1], p) + (if p(s[|s| - 1]) then 1 else 0)
  }

  lemma {:induction false} CountWhereAppend(a: seq<Card>, b: seq<Card>, p: Card -> bool)
    ensures CountWhere(a + b, p) == CountWhere(a, p) + CountWhere(b, p)
    decreases |b|
  {
    if b == [] {
      assert a + b == a;
    } else {
      assert (a + b)[..|a + b| - 1] == a + b[..|b| - 1];
      CountWhereAppend(a, b[..|b| - 1], p);
    }
  }

  lemma {:induction false} NumberPairsShape(c: Color, upTo: nat)
    ensures |NumberPairs(c, upTo)| == if upTo <= 1 then 0 else 2 * (upTo - 1)
    ensures forall x :: x in NumberPairs(c, upTo) ==> x.Numbered? && x.color == c && 1 <= x.number < upTo
  {
    if upTo > 1 {
      var u: nat := upTo - 1;
      NumberPairsShape(c, u);
    }
  }

  lemma {:induction false} NumberPairsCopies(c: Color, upTo: nat, k: nat)
    ensures multiset(NumberPairs(c, upTo))[Numbered(c, k)] == if 1 <= k < upTo then 2 else 0
  {
    if upTo > 1 {
      var u: nat := upTo - 1;
      NumberPairsCopies(c, u, k);
      var x := Numbered(c, u);
      assert multiset(NumberPairs(c, upTo)) == multiset(NumberPairs(c, u)) + multiset{x, x};
    } else if k >= 0 {
      assert NumberPairs(c, upTo) == [];
    }
  }

  lemma NumberedSuitShape(c: Color)
    ensures |NumberedSuit(c)| == 19
    ensures forall x :: x in NumberedSuit(c) ==> x.Numbered? && x.color == c && x.number <= 9
  {
    NumberPairsShape(c, NumberBound);
  }

  lemma NumberedSuitCopies(c: Color, k: nat)
    ensures multiset(NumberedSuit(c))[Numbered(c, k)] == NumberCopies(k)
  {
    ZeroAndPairsCopies(c, NumberBound, k);
  }

  /** A 0 followed by the pairs below `upTo`: one 0 and two of each of 1 .. upTo - 1. */
  lemma ZeroAndPairsCopies(c: Color, upTo: nat, k: nat)
    ensures multiset([Numbered(c, 0)] + NumberPairs(c, upTo))[Numbered(c, k)]
      == (if k == 0 then 1 else 0) + (if 1 <= k < upTo then 2 else 0)
  {
    NumberPairsCopies(c, upTo, k);
    assert multiset([Numbered(c, 0)] + NumberPairs(c, upTo)) == multiset{Numbered(c, 0)} + multiset(NumberPairs(c, upTo));
  }

  /** A suit of another colour holds none of this colour's numbered cards. */
  lemma OtherSuitCopies(d: Color, x: Card)
    requires x.Numbered? && x.color != d
    ensures multiset(NumberedSuit(d))[x] == 0
  {
    NumberedSuitShape(d);
  }

  lemma ActionSuitCopies(d: Color, c: Color, x: Card)
    requires x == Skip(c) || x == Reverse(c) || x == Draw(c)
    ensures multiset(ActionSuit(d))[x] == if d == c then 2 else 0
  {
    if d != c {
      assert x !in ActionSuit(d);
    }
  }

  lemma {:induction false} NumberedCardsShape(cs: seq<Color>)
    ensures |NumberedCards(cs)| == 19 * |cs|
    ensures forall x :: x in NumberedCards(cs) ==> x.Numbered? && x.color in cs && x.number <= 9
  {
    if cs != [] {
      var init := cs[..|cs| - 1];
      NumberedCardsShape(init);
      NumberedSuitShape(cs[|cs| - 1]);
      forall x | x in NumberedCards(cs) ensures x.Numbered? && x.color in cs && x.number <= 9 {
        if x in NumberedCards(init) {
          assert x.color in init;
        }
      }
    }
  }

  lemma {:induction false} ActionCardsShape(cs: seq<Color>)
    ensures |ActionCards(cs)| == 6 * |cs|
    ensures forall x :: x in ActionCards(cs) ==> (x.Skip? || x.Reverse? || x.Draw?) && x.color in cs
  {
    if cs != [] {
      var init := cs[..|cs| - 1];
      ActionCardsShape(init);
      forall x | x in ActionCards(cs) ensures (x.Skip? || x.Reverse? || x.Draw?) && x.color in cs {
        if x in ActionCards(init) {
          assert x.color in init;
        }
      }
    }
  }

  /**
   * A colour occurs in a list of distinct colours either before its last
   * position or at it, never both.
   */
  lemma LastColorIsNew(cs: seq<Color>, c: Color)
    requires cs != []
    requires Distinct(cs)
    ensures c in cs <==> c in cs[..|cs| - 1] || c == cs[|cs| - 1]
    ensures c == cs[|cs| - 1] ==> c !in cs[..|cs| - 1]
  {
    var init := cs[..|cs| - 1];
    forall i | 0 <= i < |init| ensures init[i] != cs[|cs| - 1] {
      assert init[i] == cs[i];
    }
    assert cs == init + [cs[|cs| - 1]];
  }

  /** Dropping the last colour keeps the colours distinct. */
  lemma DistinctInit(cs: seq<Color>)
    requires cs != [] && Distinct(cs)
    ensures Distinct(cs[..|cs| - 1])
  {
    var init := cs[..|cs| - 1];
    forall i, j | 0 <= i < j < |init| ensures init[i] != init[j] {
      assert init[i] == cs[i] && init[j] == cs[j];
    }
  }

  /** A suit holds this colour's numbered cards only when it is of this colour. */
  lemma SuitCopies(d: Color, c: Color, k: nat)
    ensures multiset(NumberedSuit(d))[Numbered(c, k)] == if d == c then NumberCopies(k) else 0
  {
    if d == c {
      NumberedSuitCopies(c, k);
    } else {
      OtherSuitCopies(d, Numbered(c, k));
    }
  }

  /** The numbered cards of a colour list are those of all but its last colour, then the last suit. */
  lemma NumberedCardsSplit(cs: seq<Color>, x: Card)
    requires cs != []
    ensures multiset(NumberedCards(cs))[x]
      == multiset(NumberedCards(cs[..|cs| - 1]))[x] + multiset(NumberedSuit(cs[|cs| - 1]))[x]
  {
    assert NumberedCards(cs) == NumberedCards(cs[..|cs| - 1]) + NumberedSuit(cs[|cs| - 1]);
  }

  /** A colour that a list of distinct colours holds once contributes its suit once. */
  lemma {:induction false} NumberedCardsCopies(cs: seq<Color>, c: Color, k: nat)
    requires Distinct(cs)
    ensures multiset(NumberedCards(cs))[Numbered(c, k)] == if c in cs then NumberCopies(k) else 0
  {
    if cs != [] {
      var init, last := cs[..|cs| - 1], cs[|cs| - 1];
      LastColorIsNew(cs, c);
      DistinctInit(cs);
      SuitCopies(last, c, k);
      NumberedCardsSplit(cs, Numbered(c, k));
      NumberedCardsCopies(init, c, k);
    }
  }

  /** The action cards of a colour list are those of all but its last colour, then the last suit. */
  lemma ActionCardsSplit(cs: seq<Color>, x: Card)
    requires cs != []
    ensures multiset(ActionCards(cs))[x]
      == multiset(ActionCards(cs[..|cs| - 1]))[x] + multiset(ActionSuit(cs[|cs| - 1]))[x]
  {
    assert ActionCards(cs) == ActionCards(cs[..|cs| - 1]) + ActionSuit(cs[|cs| - 1]);
  }

  lemma {:induction false} ActionCardsCopies(cs: seq<Color>, c: Color, x: Card)
    requires Distinct(cs)
    requires x == Skip(c) || x == Reverse(c) || x == Draw(c)
    ensures multiset(ActionCards(cs))[x] == if c in cs then 2 else 0
  {
    if cs != [] {
      var init, last := cs[..|cs| - 1], cs[|cs| - 1];
      LastColorIsNew(cs, c);
      DistinctInit(cs);
      ActionSuitCopies(last, c, x);
      ActionCardsSplit(cs, x);
      ActionCardsCopies(init, c, x);
    }
  }

  /** Counting a sequence whose cards all satisfy `p`, or none does. */
  lemma {:induction false} CountWhereUniform(s: seq<Card>, p: Card -> bool, all: bool)
    requires forall x :: x in s ==> p(x) == all
    ensures CountWhere(s, p) == if all then |s| else 0
  {
    if s != [] {
      assert forall x :: x in s[..|s| - 1] ==> x in s;
      CountWhereUniform(s[..|s| - 1], p, all);
    }
  }

  /** The predicate behind `filter(is({type: 'NUMBERED', color}))`. */
  function NumberedOf(c: Color): Card -> bool
  {
    (x: Card) => x.Numbered? && x.color == c
  }

  lemma {:induction false} NumberedCardsPerColor(cs: seq<Color>, c: Color)
    requires Distinct(cs)
    ensures CountWhere(NumberedCards(cs), NumberedOf(c)) == if c in cs then 19 else 0
  {
    if cs != [] {
      var init, last := cs[..|cs| - 1], cs[|cs| - 1];
      DistinctInit(cs);
      NumberedCardsPerColor(init, c);
      CountWhereAppend(NumberedCards(init), NumberedSuit(last), NumberedOf(c));
      NumberedSuitShape(last);
      CountWhereUniform(NumberedSuit(last), NumberedOf(c), last == c);
      LastColorIsNew(cs, c);
    }
  }

  /** The predicate behind `filter(is({type}))`. */
  function OfKind(k: Kind): Card -> bool
  {
    (x: Card) => KindOf(x) == k
  }

  lemma {:induction false} ActionCardsPerKind(cs: seq<Color>, k: Kind)
    ensures CountWhere(ActionCards(cs), OfKind(k)) == if k in {SkipKind, ReverseKind, DrawKind} then 2 * |cs| else 0
  {
    if cs != [] {
      var init, last := cs[..|cs| - 1], cs[|cs| - 1];
      ActionSuitPerKind(last, k);
      ActionCardsPerKind(init, k);
      CountWhereAppend(ActionCards(init), ActionSuit(last), OfKind(k));
    }
  }

  /** One colour's action cards: two of each action type. */
  lemma ActionSuitPerKind(c: Color, k: Kind)
    ensures CountWhere(ActionSuit(c), OfKind(k)) == if k in {SkipKind, ReverseKind, DrawKind} then 2 else 0
  {
    var skips, reverses, draws := [Skip(c), Skip(c)], [Reverse(c), Reverse(c)], [Draw(c), Draw(c)];
    assert ActionSuit(c) == skips + reverses + draws;
    CountWhereUniform(skips, OfKind(k), k == SkipKind);
    CountWhereUniform(reverses, OfKind(k), k == ReverseKind);
    CountWhereUniform(draws, OfKind(k), k == DrawKind);
    CountWhereAppend(skips, reverses, OfKind(k));
    CountWhereAppend(skips + reverses, draws, OfKind(k));
  }

  /** How many cards of each type the standard deck holds. */
  function KindTotal(k: Kind): nat
  {
    match k
    case NumberedKind => 76
    case SkipKind => 8
    case ReverseKind => 8
    case DrawKind => 8
    case WildKind => 4
    case WildDrawKind => 4
  }

  lemma ColorsDistinct()
    ensures Distinct(Colors)
    ensures forall c: Color :: c in Colors
  {
    forall c: Color ensures c in Colors {
      match c
      case Red => assert Colors[0] == c;
      case Green => assert Colors[1] == c;
      case Blue => assert Colors[2] == c;
      case Yellow => assert Colors[3] == c;
    }
  }

  /** createInitialDeck returns 108 cards. */
  lemma StandardDeckSize()
    ensures |StandardDeck()| == 108
  {
    NumberedCardsShape(Colors);
    ActionCardsShape(Colors);
  }

  lemma DeckNumbered(cs: seq<Color>, c: Color, k: nat)
    requires Distinct(cs) && c in cs
    ensures multiset(DeckOf(cs))[Numbered(c, k)] == NumberCopies(k)
  {
    var x := Numbered(c, k);
    WildCardsHoldNo(x);
    ActionCardsOnlyActions(cs, x);
    NumberedCardsCopies(cs, c, k);
    DeckCopies(cs, x);
  }

  /** The action cards hold no card of another type. */
  lemma ActionCardsOnlyActions(cs: seq<Color>, x: Card)
    requires !(x.Skip? || x.Reverse? || x.Draw?)
    ensures multiset(ActionCards(cs))[x] == 0
  {
    ActionCardsShape(cs);
  }

  /** Per colour: one numbered 0, two of each of 1 .. 9, and no other number. */
  lemma StandardDeckNumbered(c: Color, k: nat)
    ensures multiset(StandardDeck())[Numbered(c, k)] == NumberCopies(k)
  {
    ColorsDistinct();
    DeckNumbered(Colors, c, k);
  }

  /** A card's copies in a deck are its copies among the numbered, the action and the wild cards. */
  lemma DeckCopies(cs: seq<Color>, x: Card)
    ensures multiset(DeckOf(cs))[x]
      == multiset(NumberedCards(cs))[x] + multiset(ActionCards(cs))[x] + multiset(WildCards())[x]
  {
    assert multiset(DeckOf(cs)) == multiset(NumberedCards(cs)) + multiset(ActionCards(cs)) + multiset(WildCards());
  }

  /** The numbered cards hold no card of another type. */
  lemma NumberedCardsOnlyNumbered(cs: seq<Color>, x: Card)
    requires !x.Numbered?
    ensures multiset(NumberedCards(cs))[x] == 0
  {
    NumberedCardsShape(cs);
  }

  lemma DeckActions(cs: seq<Color>, c: Color, x: Card)
    requires Distinct(cs) && c in cs
    requires x == Skip(c) || x == Reverse(c) || x == Draw(c)
    ensures multiset(DeckOf(cs))[x] == 2
  {
    WildCardsHoldNo(x);
    NumberedCardsOnlyNumbered(cs, x);
    ActionCardsCopies(cs, c, x);
    DeckCopies(cs, x);
  }

  /** Per colour: exactly two each of SKIP, REVERSE and DRAW. */
  lemma StandardDeckActions(c: Color, x: Card)
    requires x == Skip(c) || x == Reverse(c) || x == Draw(c)
    ensures multiset(StandardDeck())[x] == 2
  {
    ColorsDistinct();
    DeckActions(Colors, c, x);
  }

  lemma DeckWilds(cs: seq<Color>, x: Card)
    requires x == Wild(None) || x == WildDraw(None)
    ensures multiset(DeckOf(cs))[x] == 4
  {
    WildCardsCopies(x);
    NumberedCardsOnlyNumbered(cs, x);
    ActionCardsOnlyActions(cs, x);
    DeckCopies(cs, x);
  }

  lemma WildCardsCopies(x: Card)
    requires x == Wild(None) || x == WildDraw(None)
    ensures multiset(WildCards())[x] == 4
  {
    var wilds, wildDraws := [Wild(None), Wild(None), Wild(None), Wild(None)],
      [WildDraw(None), WildDraw(None), WildDraw(None), WildDraw(None)];
    assert WildCards() == wilds + wildDraws;
    if x == Wild(None) {
      assert multiset(wilds)[x] == 4 && multiset(wildDraws)[x] == 0;
    } else {
      assert multiset(wilds)[x] == 0 && multiset(wildDraws)[x] == 4;
    }
  }

  lemma WildCardsAreWild()
    ensures forall y :: y in WildCards() ==> IsWild(y)
  {
  }

  /** The wild cards hold no card of another type. */
  lemma WildCardsHoldNo(x: Card)
    requires !IsWild(x)
    ensures multiset(WildCards())[x] == 0
  {
    WildCardsAreWild();
  }

  /** Four colourless WILD and four colourless WILD DRAW cards. */
  lemma StandardDeckWilds(x: Card)
    requires x == Wild(None) || x == WildDraw(None)
    ensures multiset(StandardDeck())[x] == 4
  {
    DeckWilds(Colors, x);
  }

  lemma DeckShapes(cs: seq<Color>)
    ensures forall x :: x in DeckOf(cs) ==> (x.Numbered? ==> x.number <= 9) && (IsWild(x) ==> ColorOf(x) == None)
  {
    NumberedCardsShape(cs);
    ActionCardsShape(cs);
  }

  /** Every card of the standard deck is a standard card: numbers lie in 0 .. 9 and wild cards carry no colour. */
  lemma StandardDeckShapes()
    ensures forall x :: x in StandardDeck() ==> (x.Numbered? ==> x.number <= 9) && (IsWild(x) ==> ColorOf(x) == None)
  {
    DeckShapes(Colors);
  }

  lemma DeckPerColor(cs: seq<Color>, c: Color)
    requires Distinct(cs) && c in cs
    ensures CountWhere(DeckOf(cs), NumberedOf(c)) == 19
  {
    NumberedCardsPerColor(cs, c);
    UnnumberedCount(cs, c);
    CountWhereAppend(NumberedCards(cs), ActionCards(cs), NumberedOf(c));
    CountWhereAppend(NumberedCards(cs) + ActionCards(cs), WildCards(), NumberedOf(c));
  }

  /** The action and wild cards hold no numbered card. */
  lemma UnnumberedCount(cs: seq<Color>, c: Color)
    ensures CountWhere(ActionCards(cs), NumberedOf(c)) == 0 && CountWhere(WildCards(), NumberedOf(c)) == 0
  {
    ActionCardsShape(cs);
    CountWhereUniform(ActionCards(cs), NumberedOf(c), false);
    CountWhereUniform(WildCards(), NumberedOf(c), false);
  }

  /** Per colour there are 19 numbered cards. */
  lemma StandardDeckPerColor(c: Color)
    ensures CountWhere(StandardDeck(), NumberedOf(c)) == 19
  {
    ColorsDistinct();
    DeckPerColor(Colors, c);
  }

  lemma DeckPerKind(cs: seq<Color>, k: Kind)
    requires |cs| == 4
    ensures CountWhere(DeckOf(cs), OfKind(k)) == KindTotal(k)
  {
    NumberedCardsShape(cs);
    CountWhereUniform(NumberedCards(cs), OfKind(k), k == NumberedKind);
    ActionCardsPerKind(cs, k);
    WildCardsPerKind(k);
    CountWhereAppend(NumberedCards(cs), ActionCards(cs), OfKind(k));
    CountWhereAppend(NumberedCards(cs) + ActionCards(cs), WildCards(), OfKind(k));
  }

  /** Four WILD and four WILD DRAW cards. */
  lemma WildCardsPerKind(k: Kind)
    ensures CountWhere(WildCards(), OfKind(k)) == if k == WildKind || k == WildDrawKind then 4 else 0
  {
    var wilds, wildDraws := [Wild(None), Wild(None), Wild(None), Wild(None)],
      [WildDraw(None), WildDraw(None), WildDraw(None), WildDraw(None)];
    assert WildCards() == wilds + wildDraws;
    CountWhereUniform(wilds, OfKind(k), k == WildKind);
    CountWhereUniform(wildDraws, OfKind(k), k == WildDrawKind);
    CountWhereAppend(wilds, wildDraws, OfKind(k));
  }

  /** 76 numbered cards, 8 each of SKIP, REVERSE and DRAW, 4 WILD and 4 WILD DRAW. */
  lemma StandardDeckPerKind(k: Kind)
    ensures CountWhere(StandardDeck(), OfKind(k)) == KindTotal(k)
  {
    DeckPerKind(Colors, k);
  }

  /** The inner push loop of createInitialDeck: one 0 and two of each of 1 .. 9. */
  method PushNumberedSuit(deck: seq<Card>, color: Color) returns (r: seq<Card>)
    ensures r == deck + NumberedSuit(color)
  {
    r := deck + [Numbered(color, 0)];
    var number := 1;
    while number < 10
      invariant 1 <= number <= 10
      invariant r == deck + ([Numbered(color, 0)] + NumberPairs(color, number))
    {
      r := r + [Numbered(color, number)];
      r := r + [Numbered(color, number)];
      PairsGrow(deck, color, number);
      number := number + 1;
    }
  }

  /** One more pair pushed after a prefix of a numbered suit extends the prefix. */
  lemma PairsGrow(deck: seq<Card>, c: Color, number: nat)
    requires number >= 1
    ensures deck + ([Numbered(c, 0)] + NumberPairs(c, number)) + [Numbered(c, number)] + [Numbered(c, number)]
      == deck + ([Numbered(c, 0)] + NumberPairs(c, number + 1))
  {
    var x := Numbered(c, number);
    assert NumberPairs(c, number + 1) == NumberPairs(c, number) + [x, x];
  }

  /**
   * The push loops of createInitialDeck over the colours `cs`: first the
   * numbered cards of every colour, then two SKIP, two REVERSE and two DRAW
   * of every colour, then four WILD and four WILD DRAW.
   */
  method BuildDeck(cs: seq<Color>) returns (deck: seq<Card>)
    ensures deck == DeckOf(cs)
  {
    deck := [];
    var i := 0;
    while i < |cs|
      invariant 0 <= i <= |cs|
      invariant deck == NumberedCards(cs[..i])
    {
      deck := PushNumberedSuit(deck, cs[i]);
      assert cs[..i + 1][..i] == cs[..i];
      i := i + 1;
    }
    assert cs[..i] == cs;
    i := 0;
    while i < |cs|
      invariant 0 <= i <= |cs|
      invariant deck == NumberedCards(cs) + ActionCards(cs[..i])
    {
      var color := cs[i];
      deck := deck + [Skip(color)];
      deck := deck + [Skip(color)];
      deck := deck + [Reverse(color)];
      deck := deck + [Reverse(color)];
      deck := deck + [Draw(color)];
      deck := deck + [Draw(color)];
      assert cs[..i + 1][..i] == cs[..i];
      i := i + 1;
    }
    assert cs[..i] == cs;
    deck := deck + [Wild(None), Wild(None), Wild(None), Wild(None)];
    deck := deck + [WildDraw(None), WildDraw(None), WildDraw(None), WildDraw(None)];
  }

  /**
   * A pile: an ordered sequence of cards and a cached size. Cards are dealt
   * from the front and the top is the last card.
   */
  class Pile {
    var cards: seq<Card>
    var size: int

    /** The cached size agrees with the sequence. */
    ghost predicate Valid()
      reads this
    {
      size == |cards|
    }

    /** createEmptyPile: no cards, size 0. */
    constructor Empty()
      ensures cards == [] && size == 0
      ensures Valid()
    {
      cards := [];
      size := 0;
    }

    /** createInitialDeck: the 108 standard cards, in the order they are pushed. */
    constructor Initial()
      ensures cards == StandardDeck() && size == 108
      ensures Valid()
    {
      var deck := BuildDeck(Colors);
      StandardDeckSize();
      cards := deck;
      size := |deck|;
    }

    /**
     * Reorders the cards with the given shuffler and refreshes the size. When
     * the shuffler only permutes, the same cards remain.
     */
    method Shuffle(shuffler: Shuffler)
      modifies this
      ensures cards == shuffler(old(cards))
      ensures size == |cards|
      ensures IsShuffler(shuffler) ==> multiset(cards) == multiset(old(cards))
    {
      cards := shuffler(cards);
      size := |cards|;
    }

    /**
     * Takes the front card. An empty pile yields no card and is left as it
     * was; otherwise exactly the front card is removed and the size refreshed.
     */
    method Deal() returns (c: Option<Card>)
      modifies this
      ensures old(cards) == [] ==> c == None && cards == old(cards) && size == old(size)
      ensures old(cards) != [] ==> c == Some(old(cards)[0]) && cards == old(cards)[1..] && size == |cards|
      ensures old(Valid()) ==> (c.Some? <==> old(size) > 0)
      ensures old(Valid()) && c.Some? ==> size == old(size) - 1 && [c.value] + cards == old(cards)
    {
      if |cards| == 0 {
        return None;
      }
      c := Some(cards[0]);
      cards := cards[1..];
      size := |cards|;
    }

    /** The last card, if any; the pile is only read. */
    function Top(): (r: Option<Card>)
      reads this
      ensures r == None <==> cards == []
      ensures r.Some? ==> r.value == cards[|cards| - 1] && r.value in cards
    {
      if cards == [] then None else Some(cards[|cards| - 1])
    }

    /**
     * Deals `size` times, as a client emptying a valid pile does: the cards
     * come out in pile order and the pile ends empty.
     */
    method DealAll() returns (dealt: seq<Card>)
      requires Valid()
      modifies this
      ensures dealt == old(cards)
      ensures cards == [] && size == 0
    {
      dealt := [];
      var n := size;
      var i := 0;
      while i < n
        invariant 0 <= i <= n
        invariant Valid()
        invariant dealt + cards == old(cards)
        invariant size == n - i
      {
        var c := Deal();
        dealt := dealt + [c.value];
        i := i + 1;
      }
    }
  }
}
