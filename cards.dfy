/**
 * UNO cards (src/model/deck.ts). The source describes a card as a record
 * with a type tag and an optional colour and number; only the shapes below
 * are ever created, so the model uses a tagged variant and recovers the
 * optional fields with ColorOf and NumberOf.
 */
module Cards {
  import opened Results

  datatype Color = Red | Green | Blue | Yellow

  /** The type tag of a card ('NUMBERED', 'SKIP', ..., 'WILD DRAW'). */
  datatype Kind = NumberedKind | SkipKind | ReverseKind | DrawKind | WildKind | WildDrawKind

  /**
   * A card. A wild card is created colourless; the colour chosen when it is
   * played is recorded in `chosen` (the source mutates the card's colour).
   */
  datatype Card =
    | Numbered(color: Color, number: nat)
    | Skip(color: Color)
    | Reverse(color: Color)
    | Draw(color: Color)
    | Wild(chosen: Option<Color>)
    | WildDraw(chosen: Option<Color>)

  function KindOf(c: Card): Kind
  {
    match c
    case Numbered(_, _) => NumberedKind
    case Skip(_) => SkipKind
    case Reverse(_) => ReverseKind
    case Draw(_) => DrawKind
    case Wild(_) => WildKind
    case WildDraw(_) => WildDrawKind
  }

  /** The card's `color` field: undefined for a wild card no colour was chosen for. */
  function ColorOf(c: Card): Option<Color>
  {
    match c
    case Wild(chosen) => chosen
    case WildDraw(chosen) => chosen
    case _ => Some(c.color)
  }

  /** The card's `number` field: defined for numbered cards only. */
  function NumberOf(c: Card): Option<nat>
  {
    if c.Numbered? then Some(c.number) else None
  }

  /** `card.type.includes('WILD')`: true of WILD and WILD DRAW. */
  predicate IsWild(c: Card)
  {
    c.Wild? || c.WildDraw?
  }

  /** The colour names `play` accepts for a wild card (src/model/hand.ts:273). */
  function ParseColor(s: string): (r: Option<Color>)
    ensures r.Some? <==> s in {"RED", "GREEN", "BLUE", "YELLOW"}
    ensures s == "RED" ==> r == Some(Red)
    ensures s == "GREEN" ==> r == Some(Green)
    ensures s == "BLUE" ==> r == Some(Blue)
    ensures s == "YELLOW" ==> r == Some(Yellow)
  {
    if s == "RED" then Some(Red)
    else if s == "GREEN" then Some(Green)
    else if s == "BLUE" then Some(Blue)
    else if s == "YELLOW" then Some(Yellow)
    else None
  }

  /**
   * The discard top after `play`: a wild card takes the chosen colour when
   * the argument names one of the four colours; any other card is unchanged.
   */
  function Recolored(c: Card, color: string): (r: Card)
    ensures KindOf(r) == KindOf(c) && NumberOf(r) == NumberOf(c)
    ensures IsWild(c) && ParseColor(color).Some? ==> ColorOf(r) == ParseColor(color)
    ensures !(IsWild(c) && ParseColor(color).Some?) ==> r == c
  {
    match ParseColor(color)
    case Some(k) =>
      (match c
       case Wild(_) => Wild(Some(k))
       case WildDraw(_) => WildDraw(Some(k))
       case _ => c)
    case None => c
  }
}
