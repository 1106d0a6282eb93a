# UNO engine in Dafny

A Dafny model of a small UNO engine written in TypeScript. The engine has four parts:

- the card piles and the standard 108-card deck (`src/model/deck.ts`);
- a round of play, called a hand (`src/model/hand.ts`);
- an earlier, setup-only version of the hand (`src/model/hand2.ts`);
- the game, which adds up hand scores until a player reaches the target score (`src/model/uno.ts`).

The model keeps the source's own shape:

- A pile is a `class Pile` with a card sequence and a cached `size`.
- A round is a `class Hand` whose methods update the turn, the direction, the hands, the piles, the last actions and the UNO calls.
- The game is a `class Game` with scores, rounds and a latched winner.
- Loops in the source are `while` loops with invariants. This covers the deck building, the dealing, the reshuffle loops, the penalty draws, scoring and the winner scan.
- Each method is proved against a pure specification function. Properties of those functions are proved as lemmas:

| function | specifies |
|---|---|
| `StandardDeck` | the deck |
| `DealHands` | the deal |
| `OpeningFlip` | the hand.ts opening flip |
| `EarlyFlip` | the hand2.ts opening flip |
| `ApplyOpening` | the opening card's effect |
| `NextTurn` | the turn after a play |
| `Playable` | whether a card may be played |
| `DrawOne` | one draw, with reclaim |
| `DrawMany` | several draws, with reclaim |
| `HandsScore` | scoring |
| `FirstReaching` | the winner scan |

Modules:

- `Results`: `Option`, `Result` and `Outcome`. A thrown error is a `Failure`/`Fail` value.
- `Cards`: cards as a tagged variant. `ColorOf` and `NumberOf` recover the optional `color` and `number` fields.
- `Deck`: the standard deck, its counts, and `Pile`.
- `Rules`: seat arithmetic, turn order, playability, scoring, dealing, and drawing with reclaim.
- `Opening`: the setup steps both versions of `createHand` share.
- `HandEngine`: hand.ts.
- `EarlyHand`: hand2.ts.
- `Uno`: uno.ts.

The shuffler is a parameter of type `seq<Card> -> seq<Card>`. `IsShuffler` says that it only permutes. Card conservation is proved under that assumption. The source's reshuffle loop in hand.ts (src/model/hand.ts:91-98) has no bound. The model bounds it with a `reshuffleLimit`, and setup fails with `ReshuffleLimit` when the bound is reached.

Behaviour of the code worth knowing:

- An opening REVERSE only moves the first turn to the seat before the dealer. It does not flip the direction.
- An opening DRAW gives the first player two cards, and that player still plays first.
- REVERSE with two players leaves both the turn and the direction as they were.
- `startNewHand` never moves the dealer on. Every round of a game uses the same dealer.

## Model

| member | source | states |
|---|---|---|
| Cards.ParseColor | src/model/hand.ts:273 | a colour is recognised exactly for "RED", "GREEN", "BLUE" and "YELLOW", and each name gives its own colour |
| Cards.Recolored | src/model/hand.ts:269-277 | type and number never change; a wild card takes the named colour when the argument names one; every other card is returned unchanged |
| Deck.StandardDeckSize | src/model/deck.ts:58-113 | the initial deck has 108 cards |
| Deck.StandardDeckNumbered | src/model/deck.ts:63-69 | per colour there is one numbered 0, two each of 1..9, and no other number |
| Deck.StandardDeckPerColor | src/model/deck.ts:63-69 | per colour there are 19 numbered cards |
| Deck.StandardDeckActions | src/model/deck.ts:72-81 | per colour there are exactly two each of SKIP, REVERSE and DRAW |
| Deck.StandardDeckWilds | src/model/deck.ts:83-93 | there are four colourless WILD and four colourless WILD DRAW cards |
| Deck.StandardDeckPerKind | src/model/deck.ts:58-93 | by type: 76 NUMBERED, 8 SKIP, 8 REVERSE, 8 DRAW, 4 WILD, 4 WILD DRAW |
| Deck.StandardDeckShapes | src/model/deck.ts:58-93 | every number lies in 0..9 and every wild card is colourless |
| Deck.DeckNumbered | src/model/deck.ts:63-69 | numbered-card counts for any list of distinct colours |
| Deck.DeckActions | src/model/deck.ts:72-81 | action-card counts for any list of distinct colours |
| Deck.DeckWilds | src/model/deck.ts:83-93 | wild-card counts for any colour list |
| Deck.DeckPerColor | src/model/deck.ts:63-69 | 19 numbered cards per colour, for any distinct colour list |
| Deck.DeckPerKind | src/model/deck.ts:58-93 | counts by type for any four colours |
| Deck.PushNumberedSuit | src/model/deck.ts:63-69 | the inner push loop appends exactly one colour's numbered suit |
| Deck.BuildDeck | src/model/deck.ts:58-93 | the push loops produce the deck in its specified order |
| Deck.Pile.Empty | src/model/deck.ts:34-38 | the new pile has no cards and size 0 |
| Deck.Pile.Initial | src/model/deck.ts:58-97 | the new pile holds the standard deck and has size 108 |
| Deck.Pile.Shuffle | src/model/deck.ts:98-101 | the cards are the shuffler's result and the size is refreshed; a permuting shuffler keeps the multiset |
| Deck.Pile.Deal | src/model/deck.ts:102-109 | an empty pile gives no card and is unchanged; otherwise the front card is returned and only it is removed, and a valid size drops by one |
| Deck.Pile.Top | src/model/deck.ts:110-112 | the top is the last card, or none for an empty pile; the pile is only read |
| Deck.Pile.DealAll | __test__/model/deck.test.ts:120-129 | dealing `size` times yields the cards in pile order and leaves size 0 |
| Rules.Seat | src/model/hand.ts:217-279 | the source's `(cur + k + n) % n` is always a seat at the table |
| Rules.SeatOneStep | src/model/hand.ts:266-279 | moving `dir` seats is one step round the table |
| Rules.SeatTwoSteps | src/model/hand.ts:222 | moving `2 * dir` seats is two steps round the table |
| Rules.NextTurn | src/model/hand.ts:221-280 | the new turn is a seat and the new direction is 1 or -1 |
| Rules.NextTurnSteps | src/model/hand.ts:221-280 | SKIP, DRAW and WILD DRAW move two seats; REVERSE with n ≠ 2 flips the direction and moves one seat; two-player REVERSE keeps the turn; others move one seat |
| Rules.TurnChanges | src/model/hand.ts:221-280 | with three or more players every play passes the turn on; with two, SKIP, DRAW, WILD DRAW and REVERSE give the player another turn |
| Rules.OpeningTurn | src/model/hand.ts:105-111 | the first turn is always a seat |
| Rules.OpeningTurnSteps | src/model/hand.ts:105-113 | the first turn is one step back for REVERSE, two steps on for SKIP, one step on otherwise; for a card that is not wild it gives the same turn as the dealer playing the card, apart from DRAW (where it differs) and two-player REVERSE; the direction never flips |
| Rules.PlayableOnTop | src/model/hand.ts:171-187 | a WILD DRAW is playable iff the hand holds no card of the top's colour; any other card iff it matches the top; WILD always |
| Rules.PlayableByColor | src/model/hand.ts:181-187 | a non-wild card differing in colour, number and type is not playable; a non-WILD-DRAW card of the top's colour is |
| Rules.ColoredWildNeverAccepted | src/model/hand.ts:202 | a wild card that already has a colour is refused whatever the colour argument |
| Rules.ColorArgumentCases | src/model/hand.ts:202 | a coloured card is accepted iff no colour is given; a colourless wild card iff one is given |
| Rules.CardPoints | src/model/hand.ts:122-128 | a numbered card scores its face value, an action card 20, a wild card 50 |
| Rules.HandsScoreFlatten | src/model/hand.ts:115-134 | a round's score is the score of all remaining cards taken together |
| Rules.CardsScoreBounds | src/model/hand.ts:115-134 | standard cards score at most 50 each, and the score is 0 exactly when only zeros remain |
| Rules.CardsScorePermutation | src/model/hand.ts:115-134 | reordering cards does not change their score |
| Rules.DealConserves | src/model/hand.ts:71-80 | dealing only moves cards: the hands in order followed by the rest of the deck are the deck |
| Rules.DealFull | src/model/hand2.ts:30-39 | with enough cards player i receives deck positions i*k..(i+1)*k |
| Rules.DealFullHand | src/model/hand2.ts:30-39 | with enough cards, hand i is the deck slice i*k..(i+1)*k |
| Rules.Reclaim | src/model/hand.ts:305-311 | the discard top alone stays on the discard pile and the rest becomes the draw pile, with no card lost |
| Rules.DrawOne | src/model/hand.ts:300-315 | a non-empty draw pile gives its front card; otherwise the reclaimed pile gives one; no card is lost |
| Rules.DrawOneAvailable | src/model/hand.ts:300-315 | a card is drawn iff one is available, and afterwards one fewer is available |
| Rules.DrawOneSize | src/model/hand.ts:300-315 | a draw keeps the total number of cards |
| Rules.DrawOneConserves | src/model/hand.ts:300-315 | with a permuting shuffler, one draw only moves cards: the card drawn and the piles after hold the cards before |
| Rules.DrawManyCount | src/model/hand.ts:363-382 | `k` draws give `k` cards, or every available card when fewer are available |
| Rules.DrawManyConserves | src/model/hand.ts:363-382 | the piles before are the piles after plus the cards drawn |
| Rules.DrawManyFromFront | src/model/hand.ts:300-302 | while the draw pile holds enough cards, the draws take its front cards in order and leave the discard pile alone |
| Rules.DrawManyNoReclaim | src/model/hand.ts:300-311 | while the draw pile holds enough cards, no draw reclaims the discard pile, so its size is kept |
| Rules.DrawManySize | src/model/hand.ts:363-382 | repeated draws keep the total number of cards |
| Rules.Penalty | src/model/hand.ts:228-259 | only DRAW and WILD DRAW give a penalty |
| Rules.Remove | src/model/hand.ts:206 | removing the card at an index keeps the other cards in order and removes exactly that one |
| Opening.DealInto | src/model/hand.ts:71-80 | the nested deal loops produce the hands and leftover deck of the dealing specification |
| Opening.DealHand | src/model/hand.ts:73-79 | one player receives up to `k` front cards of the deck, in order, and only those leave the deck |
| Opening.ReflipNotWild | src/model/hand.ts:91-98 | when the reshuffle loop ends, the opening card is not wild |
| Opening.ReflipConserves | src/model/hand.ts:91-98 | the loop only moves cards, and once a card has been flipped there is still a card on top |
| Opening.ReflipFuel | src/model/hand.ts:91-98 | a larger reshuffle bound gives the same result, so the bound only cuts the loop off |
| Opening.OpeningFlipProperties | src/model/hand.ts:84-98 | the opening card is not wild; the opening card and the deck hold the dealt deck's cards; there is no card only when the deck was empty |
| Opening.FlipDiscard | src/model/hand.ts:83-98 | the flip on the piles agrees with the specification, and the discard pile holds exactly the opening card |
| Opening.FlipAgain | src/model/hand.ts:92-97 | the wild card goes under the deck, the shuffled deck's front card is dealt and becomes the whole discard pile |
| Opening.DropWildsProperties | src/model/hand2.ts:48-52 | the dropping loop ends on a non-wild card or on no card, loses only wild cards, and keeps every other card; a wild card on top is always dropped |
| Opening.EarlyFlipProperties | src/model/hand2.ts:43-52 | the same for the whole flip from the dealt deck |
| Opening.EarlyFlipDropsWild | src/model/hand2.ts:43-52 | a wild first card of the dealt deck never reaches the discard pile or the draw pile |
| Opening.FlipDropping | src/model/hand2.ts:42-52 | the flip on the piles agrees with the specification; the discard pile has size 1 |
| Opening.ApplyOpening | src/model/hand.ts:100-113 | after setup there is one hand per player and the first turn is a seat |
| Opening.ApplyOpeningEffect | src/model/hand.ts:100-113 | the discard pile is the opening card; the first turn fits it; only a DRAW changes a hand, the first player's, by up to two draw-pile cards |
| Opening.ApplyOpeningConserves | src/model/hand.ts:100-113 | the opening card's effect only moves cards from the draw pile to a hand |
| Opening.DealOpeningPenalty | src/model/hand.ts:112 | the first player gets the front two draw-pile cards, or fewer if the pile is short |
| Opening.OpenRound | src/model/hand.ts:100-113 | the piles, hands and first turn agree with the opening specification |
| HandEngine.SetupOf | src/model/hand.ts:68-113 | a successful setup has one hand per player and a first turn at the table |
| HandEngine.SetupFrom | src/model/hand.ts:71-113 | the same, from a given shuffled deck |
| HandEngine.SetupError | src/model/hand.ts:51-56 | throws for a player count outside 2..10, then for a dealer outside the table; otherwise fails iff the reshuffle bound is hit |
| HandEngine.SetupOpening | src/model/hand.ts:82-113 | after setup the discard pile holds at most one card, not wild, and the first turn fits it |
| HandEngine.SetupFromConserves | src/model/hand.ts:71-113 | setup only moves the shuffled deck's cards |
| HandEngine.SetupConserves | src/model/hand.ts:68-113 | after setup the hands and piles hold exactly the 108 standard cards |
| HandEngine.Hand.Init | src/model/hand.ts:58-66 | a new round has direction 1, no actions, no UNO calls, no winner |
| HandEngine.Hand.HasEnded | src/model/hand.ts:387-389 | the round has ended iff it has a winner |
| HandEngine.Hand.Winner | src/model/hand.ts:391-396 | undefined before the end; afterwards a player whose hand is empty |
| HandEngine.Hand.PlayerInTurn | src/model/hand.ts:136-138 | always a seat at the table |
| HandEngine.Hand.Player | src/model/hand.ts:140-145 | throws iff the index is outside the table, otherwise the name |
| HandEngine.Hand.PlayerHand | src/model/hand.ts:147-152 | throws iff the index is outside the hands, otherwise the hand |
| HandEngine.Hand.LastActionOf | src/model/hand.ts:154-159 | throws iff the index is outside the hands, otherwise the last action |
| HandEngine.Hand.CanPlay | src/model/hand.ts:161-188 | false once ended, otherwise exactly the playability rule, including the no-bluff WILD DRAW check |
| HandEngine.Hand.CanPlayAny | src/model/hand.ts:327-332 | true iff the round is on and some card of the current hand is playable |
| HandEngine.Hand.Score | src/model/hand.ts:115-134 | undefined before the end, then the points of all cards left in all hands |
| HandEngine.Hand.TakeCard | src/model/hand.ts:300-315 | one draw for a player, with reclaim, as the draw specification says; the discard pile's size becomes 1 exactly when the draw pile was empty |
| HandEngine.Hand.TakeCardCount | src/model/hand.ts:296-325 | a draw keeps the number of cards in play |
| HandEngine.Hand.TakeCards | src/model/hand.ts:363-382 | `k` successive draws for a player, as the specification says; the discard pile's size becomes 1 exactly when one of them reclaims |
| HandEngine.Hand.Draw | src/model/hand.ts:296-325 | throws once ended. Otherwise one card with reclaim, then the action is recorded. The turn moves one seat only when the drawn card is unplayable. All cards are kept. The discard pile's size becomes 1 on a reclaim and is kept otherwise |
| HandEngine.Hand.DrawCard | src/model/hand.ts:298-319 | the previous actor's action is cleared, the current player takes one card with reclaim and is recorded as having drawn; the round stays valid; the discard pile's size becomes 1 exactly on a reclaim |
| HandEngine.Hand.SayUno | src/model/hand.ts:334-342 | throws for a bad index or an ended round; records the player only when they hold one card |
| HandEngine.Hand.CatchUnoFailure | src/model/hand.ts:344-385 | throws for a bad accused, then a bad accuser. The result is true iff the accused holds one card, did not call UNO, and has a last action. Only then do they take four cards, with reclaim, and the discard pile's size becomes 1 if a draw reclaimed; otherwise nothing changes, the size included |
| HandEngine.Hand.GivePenalty | src/model/hand.ts:228-262 | the next seat gets up to `k` front cards of the draw pile, and no card from the discard pile |
| HandEngine.Hand.PenalizeNext | src/model/hand.ts:227-262 | the penalty goes to a seat that is not the winner's, and the round stays valid, with every card kept |
| HandEngine.Hand.Discard | src/model/hand.ts:206-218 | the card moves from the hand to the discard top; an emptied hand ends the round with this player as winner; the actions are updated |
| HandEngine.Hand.ApplyEffect | src/model/hand.ts:220-280 | the penalty for the next seat, the turn and direction of NextTurn, and the chosen colour on a wild top |
| HandEngine.Hand.RecolorTop | src/model/hand.ts:269-277 | the discard top takes the chosen colour when it is wild and the colour is one of the four; nothing else changes |
| HandEngine.Hand.Play | src/model/hand.ts:190-294 | the previous actor's action is cleared and `previousTurn` updated even when the play is refused. Throws for an ended round, a bad index, an unplayable card, or a wrong colour argument. Success gives the full new state |
| HandEngine.Hand.PlayChecked | src/model/hand.ts:193-293 | the checks and effects of a play; a refused play changes nothing |
| HandEngine.Hand.PlayCard | src/model/hand.ts:196-292 | a legal play always succeeds and returns the recoloured card, with the new hands, piles, turn, direction, winner and actions |
| HandEngine.CreateHand | src/model/hand.ts:26-113 | deals seven cards each when no count is given; fails exactly with the setup error; otherwise a fresh valid round whose hands, piles and first turn are the setup specification's |
| HandEngine.Assemble | src/model/hand.ts:58-66 | the returned round holds the given table, piles and hands, starts at direction 1 with no actions and no UNO calls, has the previous turn at the dealer, and is valid |
| HandEngine.NewHand | src/model/hand.ts:26-113 | the same failures; otherwise a fresh valid round at the given table and dealer that has not ended |
| HandEngine.DealAndFlip | src/model/hand.ts:71-113 | dealing, flipping and opening on the piles agree with the setup specification |
| EarlyHand.Hand.Init | src/model/hand2.ts:68-72 | the round holds the given table, piles, hands and first turn |
| EarlyHand.Hand.PlayerInTurn | src/model/hand2.ts:73 | always a seat at the table |
| EarlyHand.Hand.Player | src/model/hand2.ts:74-79 | throws iff the index is outside the table, otherwise the name |
| EarlyHand.Hand.PlayerHand | src/model/hand2.ts:80-85 | throws iff the index is outside the hands, otherwise the hand |
| EarlyHand.EarlySetupFrom | src/model/hand2.ts:30-66 | one hand per player and a first turn at the table |
| EarlyHand.EarlySetupOpening | src/model/hand2.ts:42-66 | at most one discard card, not wild, and the first turn fits it |
| EarlyHand.EarlySetupKeeps | src/model/hand2.ts:30-66 | setup loses only wild cards and keeps every other card of the deck |
| EarlyHand.EarlySetupDropsWild | src/model/hand2.ts:30-66 | a wild card turned up first from the dealt deck is one of the cards setup loses |
| EarlyHand.CreateHand | src/model/hand2.ts:14-67 | deals seven cards each when no count is given; throws for a bad player count, then a bad dealer; otherwise a fresh valid round as the specification says |
| EarlyHand.DealAndDrop | src/model/hand2.ts:30-66 | dealing, dropping flip and opening on the piles agree with the specification |
| Uno.FirstReaching | src/model/uno.ts:68-75 | the lowest seat whose score reaches the target, or none when no score does |
| Uno.Game.Init | src/model/uno.ts:40-44 | all scores 0, one round, not ended, no winner |
| Uno.Game.CurrentHand | src/model/uno.ts:59-61 | the newest round |
| Uno.Game.Score | src/model/uno.ts:79-81 | a seat's total, never negative; undefined outside the table |
| Uno.Game.Player | src/model/uno.ts:83-88 | throws iff the index is outside the table, otherwise the name |
| Uno.Game.EndGame | src/model/uno.ts:55-57 | the game is marked ended |
| Uno.Game.Winner | src/model/uno.ts:63-77 | once ended, the latched winner, possibly none; otherwise the first seat reaching the target, which ends the game and is latched |
| Uno.Game.StartNewHand | src/model/uno.ts:48-53 | a fresh round becomes the newest; fails, changing nothing, exactly with the round's setup error |
| Uno.Game.AddHandScore | src/model/uno.ts:95-100 | once the round has ended its score goes to the winner's total; no other total changes; totals never decrease |
| Uno.Game.ContinueGame | src/model/uno.ts:103-105 | an ended game keeps its rounds; otherwise a new round is appended, or the setup error is returned and the rounds are unchanged |
| Uno.Game.UpdateScores | src/model/uno.ts:94-105 | the round's score goes to its winner; a new round starts iff the game has not ended; totals never decrease |
| Uno.CreateGame | src/model/uno.ts:23-91 | throws for fewer than two players, then a target ≤ 0 (default 500), then the round's setup error; otherwise zero scores and one fresh valid round, set up with the game's card count (7 when none is given) |

## Left out

- Randomness: `standardShuffler` is not part of this model. The shuffler is a parameter, and card conservation is proved for shufflers that only permute. Because the shuffler is a fixed function, every round of a game starts from the same shuffled deck.
- The random dealer of `createGame` (src/model/uno.ts:45) is not modelled: the dealer is an input. A dealer the source would pick is always at the table.
- HandEngine.CreateHand: the reshuffle loop of src/model/hand.ts:91-98 is bounded by `reshuffleLimit`. When the bound is reached, setup fails with `ReshuffleLimit`, which the source never throws. The source loops for ever when the shuffler keeps putting a wild card on top.
- EarlyHand.CreateHand: requires a shuffler that only permutes. This is what makes the dropping loop end. The source's loop may run for ever with a shuffler that adds cards.
- Uno.CreateGame, Uno.Game.StartNewHand: a round's hands, piles and first turn are tied to the setup specification (`SetupOf`) only by `HandEngine.CreateHand`. The game-level contracts promise a fresh valid round set up with the game's card count, not which cards it holds, because restating the setup there unrolls the whole standard deck.
- Uno.Game.StartNewHand: fails with the round's setup error, as `createHand` throws there. With a fixed shuffler a game's settings that set up the first round always set up the next ones too, but this is not stated.
- Uno.CreateGame, HandEngine.CreateHand, EarlyHand.CreateHand: `targetScore` and `cardsPerPlayer` are integers in the model. The source takes any JavaScript number: a fractional `targetScore` such as 0.5 is accepted, and a fractional `cardsPerPlayer` makes the deal loop of src/model/hand.ts:73 run ⌈k⌉ times per player.
- Logging (`console.warn`, `console.error`) has no effect on state and is left out.
- `undefined` array entries are modelled as "no card". The source can create them in three ways: pushing `deal()!` from an empty pile for the opening DRAW, `[topDiscard!]` when the deck ran out, and reclaiming from an empty discard pile. The source then holds an `undefined` entry in a hand or pile.
- The stale `size` of the discard pile is kept as the source leaves it. It is not refreshed when cards are played, and in hand2.ts it stays 1 after a flip from an empty deck. Only the draw pile's size is part of the round's invariant.
- hand2.ts builds its discard and draw piles with `createInitialDeck` and then replaces their cards. Only the replaced cards and the stated sizes are modelled.
- HandEngine.Hand.CanPlay: requires that the index lies inside the current hand whenever the round is on and the discard pile has a top. The source dereferences an undefined card in that case.
- The dead `dealer == undefined` branch of `startNewHand` (src/model/uno.ts:49) is left out, because the dealer is always set by then.
- `lastPlayerInAction` is declared by the interface but never implemented, and the `gameEnded` snapshot field of the returned object (src/model/hand.ts:403) is a stale copy. `HasEnded` stands for both.
- Commented-out code (src/model/hand.ts:282-291, src/model/uno.ts:107-134) is not behaviour and is left out.
- Object identity of the arrays returned by `playerHand` is not modelled. In the source, callers can mutate a player's hand through them.
- `playerCount`, `targetScore`, `dealer` and `players` on the returned objects are the class's constant fields.
