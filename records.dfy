/** The documents held by the card bot's collections, as values.

    A field the source stores in snake_case (`card_id`, `been_dealt`, ...)
    is written here in camelCase. An argument the caller may leave
    `undefined` is an `Option`, with `None` for `undefined`.
 */
module Records {

  datatype Option<+T> = None | Some(value: T)

  /** The conditions the database layer reports by throwing deliberately,
      plus the one the model adds for a finite id stream. */
  datatype Error =
    | AlreadyBurnt        // burnCard on a burnt card
    | CardNotFound        // updateCardTag on a card the user does not own
    | OutOfCandidateIds   // addCards ran out of candidate ids
    | DustUpdateUndefined // rejectGift calls a dust update the file does not define
    | NoGiftToSettle      // removeGiftFromInbox reads a field of a null findOne result

  datatype Result<+T> = Ok(value: T) | Err(error: Error)

  /** Owner value of a card in the drop pool. */
  const Unclaimed: string := ""
  /** Owner value of a card held in transit during a gift. */
  const Pending: string := "pending"

  /** One document of `activecards`: the template fields as copied by
      addCards, plus the fields the card store updates. */
  datatype Card = Card(
    cardId: string,
    cardName: string,
    rarity: string,
    userId: string,
    beenDealt: bool,
    beenBurnt: bool,
    tag: string,
    quantity: int)

  /** One document of `players`: the counters the economy updates, the
      player's tag list and the last card received. */
  datatype Player = Player(
    userId: string,
    currency: int,
    extraGrabs: int,
    extraDrops: int,
    parts: int,
    fragments: int,
    dust: int,
    tags: seq<string>,
    lastCard: string)

  /** The six player counters that have an update function. */
  datatype Counter = ExtraGrabsCounter | ExtraDropsCounter | CurrencyCounter
                   | DustCounter | PartsCounter | FragmentsCounter

  /** The nine quantities a resource gift carries. */
  datatype Resource = ExtraGrabs | ExtraDrops | Currency | DominantDust | SubmissiveDust
                    | ConceptDust | ObjectDust | Parts | Fragments

  /** The stored quantities of a gift document. */
  datatype Amounts = Amounts(
    extraGrabs: int,
    extraDrops: int,
    currency: int,
    dominantDust: int,
    submissiveDust: int,
    conceptDust: int,
    objectDust: int,
    parts: int,
    fragments: int)

  /** The quantity arguments of acceptGift, rejectGift and
      removeGiftFromInbox; `None` is an `undefined` argument. */
  datatype Deltas = Deltas(
    extraGrabs: Option<int>,
    extraDrops: Option<int>,
    currency: Option<int>,
    dominantDust: Option<int>,
    submissiveDust: Option<int>,
    conceptDust: Option<int>,
    objectDust: Option<int>,
    parts: Option<int>,
    fragments: Option<int>)

  /** Some dust argument is defined. */
  predicate DustsDefined(d: Deltas) {
    d.dominantDust.Some? || d.submissiveDust.Some? || d.conceptDust.Some? || d.objectDust.Some?
  }

  /** Every quantity argument left undefined. */
  const NoDeltas: Deltas := Deltas(None, None, None, None, None, None, None, None, None)

  /** One document of `giftinbox`. Documents written by addGiftToInbox have
      no `card_id` (cardId = None); the card path of removeGiftFromInbox
      nevertheless queries the collection by `card_id`. */
  datatype Gift = Gift(
    fromUserId: string,
    toUserId: string,
    cardId: Option<string>,
    amounts: Amounts,
    timestamp: int)

  function Amount(a: Amounts, r: Resource): int {
    match r
    case ExtraGrabs => a.extraGrabs
    case ExtraDrops => a.extraDrops
    case Currency => a.currency
    case DominantDust => a.dominantDust
    case SubmissiveDust => a.submissiveDust
    case ConceptDust => a.conceptDust
    case ObjectDust => a.objectDust
    case Parts => a.parts
    case Fragments => a.fragments
  }

  function Delta(d: Deltas, r: Resource): Option<int> {
    match r
    case ExtraGrabs => d.extraGrabs
    case ExtraDrops => d.extraDrops
    case Currency => d.currency
    case DominantDust => d.dominantDust
    case SubmissiveDust => d.submissiveDust
    case ConceptDust => d.conceptDust
    case ObjectDust => d.objectDust
    case Parts => d.parts
    case Fragments => d.fragments
  }

  /** The amount a defined argument stands for; an undefined one changes nothing. */
  function OrZero(o: Option<int>): int {
    if o.Some? then o.value else 0
  }

  /** JavaScript truthiness of an optional card id: defined and non-empty. */
  predicate Truthy(cardId: Option<string>) {
    cardId.Some? && cardId.value != ""
  }

  function Counted(p: Player, c: Counter): int {
    match c
    case ExtraGrabsCounter => p.extraGrabs
    case ExtraDropsCounter => p.extraDrops
    case CurrencyCounter => p.currency
    case DustCounter => p.dust
    case PartsCounter => p.parts
    case FragmentsCounter => p.fragments
  }
}
