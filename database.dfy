/** The database layer of the card bot: one store holding the four
    collections it works on, with one method per exported function.

    Each method makes the collection updates the function sends to MongoDB
    and is proved against the functions of CardStore, Drops, PlayerStore
    and GiftInbox that give those updates their meaning. */
module Database {
  import opened Records
  import opened CardStore
  import opened Drops
  import opened PlayerStore
  import opened GiftInbox

  class Store {
    /** `activecards`, by `card_id`. */
    var cards: CardMap
    /** The `card_id`s of `tempcards`. */
    var tempCards: set<string>
    /** `players`, by `user_id`. */
    var players: PlayerMap
    /** `giftinbox`, in natural order. */
    var inbox: seq<Gift>

    ghost predicate Valid()
      reads this
    {
      KeyedById(cards) && KeyedByUser(players)
    }

    constructor (cards0: CardMap, tempCards0: set<string>, players0: PlayerMap, inbox0: seq<Gift>)
      requires KeyedById(cards0) && KeyedByUser(players0)
      ensures Valid()
      ensures cards == cards0 && tempCards == tempCards0 && players == players0 && inbox == inbox0
    {
      cards := cards0;
      tempCards := tempCards0;
      players := players0;
      inbox := inbox0;
    }

    // -------------------------------------------------------------------
    // Lookups

    /** checkIfPlayer: whether a player document has this `user_id`. */
    function CheckIfPlayer(userId: string): (registered: bool)
      reads this
      requires Valid()
      ensures registered <==> exists u :: u in players && players[u].userId == userId
    {
      assert userId in players ==> players[userId].userId == userId;
      userId in players
    }

    /** getPlayer: the document with this `user_id`, if any. */
    function GetPlayer(userId: string): (r: Option<Player>)
      reads this
      requires Valid()
      ensures r.Some? <==> CheckIfPlayer(userId)
      ensures r.Some? ==> r.value.userId == userId && r.value == players[userId]
    {
      if userId in players then Some(players[userId]) else None
    }

    /** getCardById: the card with this `card_id`, unless it is burnt. */
    function GetCardById(cardId: string): (r: Option<Card>)
      reads this
      requires Valid()
      ensures r.Some? <==> cardId in cards && !cards[cardId].beenBurnt
      ensures r.Some? ==> r.value.cardId == cardId && !r.value.beenBurnt && r.value == cards[cardId]
    {
      if Live(cards, cardId) then Some(cards[cardId]) else None
    }

    /** getTagSuggestions: the player's tags that start with `input`,
        ignoring case; none for an unknown player. */
    function GetTagSuggestions(input: string, userId: string): (r: seq<string>)
      reads this
      ensures forall t :: t in r <==> userId in players && t in players[userId].tags && StartsWithIgnoringCase(t, input)
      ensures userId in players ==> IsSubsequence(r, players[userId].tags)
      ensures userId in players ==>
                forall t :: multiset(r)[t] == if StartsWithIgnoringCase(t, input) then multiset(players[userId].tags)[t] else 0
      ensures userId !in players ==> r == []
      ensures userId in players && input == "" ==> r == players[userId].tags
    {
      if userId in players then
        EmptyInputMatchesAll(players[userId].tags);
        MatchingTags(players[userId].tags, input)
      else []
    }

    // -------------------------------------------------------------------
    // Card store

    /** addCards: one copy of the template per requested card, each with a
        candidate id found in neither store and with the batch size as its
        `quantity`. The candidates are the values generateId would return,
        in order; running out of them is the one error. The store is not
        written. */
    method AddCards(card: Card, quantity: int, candidates: seq<string>) returns (r: Result<seq<Card>>)
      ensures r.Err? ==> r.error == OutOfCandidateIds
      ensures r.Ok? <==> quantity <= |FreshIds(candidates, tempCards, cards)|
      ensures r.Ok? ==> |r.value| == (if quantity < 0 then 0 else quantity)
      ensures r.Ok? ==> forall i :: 0 <= i < |r.value| ==>
                r.value[i] == card.(cardId := FreshIds(candidates, tempCards, cards)[i], quantity := quantity)
      ensures r.Ok? ==> forall i :: 0 <= i < |r.value| ==> Fresh(r.value[i].cardId, tempCards, cards)
    {
      var cardsToInsert: seq<Card> := [];
      var next := 0;
      var i := 0;
      while i < quantity
        invariant 0 <= next <= |candidates|
        invariant 0 <= i <= (if quantity < 0 then 0 else quantity)
        invariant |cardsToInsert| == i == |FreshIds(candidates[..next], tempCards, cards)|
        invariant forall j :: 0 <= j < i ==>
                    cardsToInsert[j] == card.(cardId := FreshIds(candidates[..next], tempCards, cards)[j], quantity := quantity)
      {
        var found, uniqueCardId, next' := GenerateUniqueId(candidates, next);
        if !found {
          return Err(OutOfCandidateIds);
        }
        next := next';
        cardsToInsert := cardsToInsert + [card.(cardId := uniqueCardId, quantity := quantity)];
        i := i + 1;
      }
      FreshIdsPrefix(candidates, next, tempCards, cards);
      r := Ok(cardsToInsert);
    }

    /** addCards' do-while: draw candidates from position `next` on until
        one is in neither store. Either it finds one, the next usable id of
        the stream, or the stream holds no usable id after `next`. */
    method GenerateUniqueId(candidates: seq<string>, next: nat) returns (found: bool, uniqueCardId: string, next': nat)
      requires next <= |candidates|
      ensures next <= next' <= |candidates|
      ensures found ==>
                FreshIds(candidates[..next'], tempCards, cards) == FreshIds(candidates[..next], tempCards, cards) + [uniqueCardId]
      ensures !found ==> FreshIds(candidates, tempCards, cards) == FreshIds(candidates[..next], tempCards, cards)
    {
      ghost var before := FreshIds(candidates[..next], tempCards, cards);
      uniqueCardId := "";
      next' := next;
      var taken := true;
      while taken
        invariant next <= next' <= |candidates|
        invariant taken ==> FreshIds(candidates[..next'], tempCards, cards) == before
        invariant !taken ==> FreshIds(candidates[..next'], tempCards, cards) == before + [uniqueCardId]
        decreases |candidates| - next'
      {
        if next' == |candidates| {
          assert candidates[..next'] == candidates;
          return false, uniqueCardId, next';
        }
        uniqueCardId := candidates[next'];
        FreshIdsStep(candidates, next', tempCards, cards);
        next' := next' + 1;
        taken := uniqueCardId in tempCards || uniqueCardId in cards;
      }
      found := true;
    }

    /** getCards: the five samples are concatenated in rarity order and
        three cards are spliced out of the result at the positions the
        rolls pick. The store is not written. */
    method GetCards(samples: seq<seq<Card>>, rolls: seq<real>) returns (selectedCards: seq<Card>)
      requires IsSampling(cards, samples)
      requires |rolls| == 3 && AreRolls(rolls)
      ensures selectedCards == Draw(Concat(samples), rolls)
      ensures |selectedCards| == Min(3, |Concat(samples)|)
      ensures multiset(selectedCards) <= multiset(Concat(samples))
      ensures DistinctIds(selectedCards)
      ensures forall i :: 0 <= i < |selectedCards| ==>
                var c := selectedCards[i];
                c.cardId in cards && cards[c.cardId] == c && !c.beenDealt && c.rarity in Rarities
      ensures forall i, j :: 0 <= i < j < |selectedCards| ==>
                selectedCards[i].rarity != "Ultra" || selectedCards[j].rarity != "Ultra"
    {
      var weightedArray := WeightedArray(samples);
      selectedCards := SelectCards(weightedArray, rolls);
      OfferFromSampling(cards, samples, rolls);
    }

    /** markDealt: one update per listed card, each setting `been_dealt`
        on the card with that `card_id`. */
    method MarkDealt(list: seq<Card>)
      requires Valid()
      modifies this`cards
      ensures Valid()
      ensures cards == CardStore.MarkDealt(old(cards), IdsOf(list))
    {
      for i := 0 to |list|
        invariant KeyedById(cards)
        invariant cards == CardStore.MarkDealt(old(cards), IdsOf(list[..i]))
      {
        var id := list[i].cardId;
        ghost var before := cards;
        if id in cards {
          cards := cards[id := cards[id].(beenDealt := true)];
        }
        MarkDealtOne(before, id);
        MarkDealtUnion(old(cards), IdsOf(list[..i]), {id});
        IdsOfPush(list[..i], list[i]);
        assert list[..i + 1] == list[..i] + [list[i]];
      }
      assert list[..|list|] == list;
    }

    /** resetDealtCards. */
    method ResetDealtCards()
      requires Valid()
      modifies this`cards
      ensures Valid()
      ensures cards == ResetDealt(old(cards))
    {
      cards := ResetDealt(cards);
    }

    /** addCardToUserCollection: true iff the card existed unclaimed, in
        which case it now belongs to `userId`. */
    method AddCardToUserCollection(userId: string, cardId: string) returns (claimed: bool)
      requires Valid()
      modifies this`cards
      ensures Valid()
      ensures claimed <==> Claimable(old(cards), cardId)
      ensures claimed ==> cardId in cards && cards[cardId].userId == userId
      ensures !claimed ==> cards == old(cards)
      ensures cards == Claim(old(cards), userId, cardId)
    {
      claimed := Claimable(cards, cardId);
      if claimed {
        cards := cards[cardId := cards[cardId].(userId := userId)];
      }
    }

    /** burnCard: refuses a card that is already burnt; otherwise burns the
        card with that id, if there is one. */
    method BurnCard(cardId: string) returns (r: Result<()>)
      requires Valid()
      modifies this`cards
      ensures Valid()
      ensures r.Err? <==> cardId in old(cards) && old(cards)[cardId].beenBurnt
      ensures r.Err? ==> r.error == AlreadyBurnt && cards == old(cards)
      ensures r.Ok? ==> cards == Burn(old(cards), cardId)
    {
      if cardId in cards && cards[cardId].beenBurnt {
        return Err(AlreadyBurnt);
      }
      cards := Burn(cards, cardId);
      r := Ok(());
    }

    /** transferCardToAnotherPlayer: the result says whether the filter
        matched, i.e. whether the card exists and is not burnt. */
    method TransferCardToAnotherPlayer(cardId: string, newUserId: string) returns (matched: bool)
      requires Valid()
      modifies this`cards
      ensures Valid()
      ensures matched <==> Live(old(cards), cardId)
      ensures cards == TransferToPlayer(old(cards), cardId, newUserId)
    {
      matched := Live(cards, cardId);
      if matched {
        cards := cards[cardId := cards[cardId].(userId := newUserId, tag := "")];
      }
    }

    /** transferCardToPending. */
    method TransferCardToPending(cardId: string) returns (matched: bool)
      requires Valid()
      modifies this`cards
      ensures Valid()
      ensures matched <==> Live(old(cards), cardId)
      ensures cards == ToPending(old(cards), cardId)
    {
      matched := Live(cards, cardId);
      if matched {
        cards := cards[cardId := cards[cardId].(userId := Pending)];
      }
    }

    /** transferCardsByTagToPending. */
    method TransferCardsByTagToPending(userId: string, tag: string)
      requires Valid()
      modifies this`cards
      ensures Valid()
      ensures cards == TagToPending(old(cards), userId, tag)
    {
      cards := TagToPending(cards, userId, tag);
    }

    /** updateCardTag: CardNotFound unless the user owns the card; then the
        tag is set unless the card is burnt, and the result says whether it
        was. */
    method UpdateCardTag(userId: string, cardId: string, tag: string) returns (r: Result<bool>)
      requires Valid()
      modifies this`cards
      ensures Valid()
      ensures r.Err? <==> !(cardId in old(cards) && old(cards)[cardId].userId == userId)
      ensures r.Err? ==> r.error == CardNotFound && cards == old(cards)
      ensures r.Ok? ==> (r.value <==> !old(cards)[cardId].beenBurnt)
      ensures cards == SetTag(old(cards), userId, cardId, tag)
    {
      if !(cardId in cards && cards[cardId].userId == userId) {
        return Err(CardNotFound);
      }
      var matched := !cards[cardId].beenBurnt;
      if matched {
        cards := cards[cardId := cards[cardId].(tag := tag)];
      }
      r := Ok(matched);
    }

    // -------------------------------------------------------------------
    // Players

    /** addPlayer: inserts the document iff its `user_id` is new. */
    method AddPlayer(player: Player) returns (inserted: bool)
      requires Valid()
      modifies this`players
      ensures Valid()
      ensures inserted <==> player.userId !in old(players)
      ensures inserted ==> players == old(players)[player.userId := player]
      ensures !inserted ==> players == old(players)
      ensures players == Register(old(players), player)
    {
      if player.userId in players {
        return false;
      }
      players := players[player.userId := player];
      inserted := true;
    }

    /** The body shared by the six counter updates: an amount of 0 returns
        at once; any other amount is `$inc`ed into the player's field. */
    method UpdateCounter(userId: string, c: Counter, amount: int) returns (acknowledged: bool)
      requires Valid()
      modifies this`players
      ensures Valid()
      ensures acknowledged
      ensures amount == 0 ==> players == old(players)
      ensures players == Credit(old(players), userId, c, amount)
    {
      if amount == 0 {
        CreditZero(players, userId, c);
        return true;
      }
      if userId in players {
        players := players[userId := Inc(players[userId], c, amount)];
      }
      acknowledged := true;
    }

    method UpdateExtraGrabs(userId: string, extraGrabs: int) returns (acknowledged: bool)
      requires Valid()
      modifies this`players
      ensures Valid()
      ensures acknowledged
      ensures players == Credit(old(players), userId, ExtraGrabsCounter, extraGrabs)
    {
      acknowledged := UpdateCounter(userId, ExtraGrabsCounter, extraGrabs);
    }

    method UpdateExtraDrops(userId: string, extraDrops: int) returns (acknowledged: bool)
      requires Valid()
      modifies this`players
      ensures Valid()
      ensures acknowledged
      ensures players == Credit(old(players), userId, ExtraDropsCounter, extraDrops)
    {
      acknowledged := UpdateCounter(userId, ExtraDropsCounter, extraDrops);
    }

    method UpdatePlayerCurrency(userId: string, currency: int) returns (acknowledged: bool)
      requires Valid()
      modifies this`players
      ensures Valid()
      ensures acknowledged
      ensures players == Credit(old(players), userId, CurrencyCounter, currency)
    {
      acknowledged := UpdateCounter(userId, CurrencyCounter, currency);
    }

    method UpdatePlayerDust(userId: string, dust: int) returns (acknowledged: bool)
      requires Valid()
      modifies this`players
      ensures Valid()
      ensures acknowledged
      ensures players == Credit(old(players), userId, DustCounter, dust)
    {
      acknowledged := UpdateCounter(userId, DustCounter, dust);
    }

    method UpdatePlayerParts(userId: string, parts: int) returns (acknowledged: bool)
      requires Valid()
      modifies this`players
      ensures Valid()
      ensures acknowledged
      ensures players == Credit(old(players), userId, PartsCounter, parts)
    {
      acknowledged := UpdateCounter(userId, PartsCounter, parts);
    }

    method UpdatePlayerFragments(userId: string, fragments: int) returns (acknowledged: bool)
      requires Valid()
      modifies this`players
      ensures Valid()
      ensures acknowledged
      ensures players == Credit(old(players), userId, FragmentsCounter, fragments)
    {
      acknowledged := UpdateCounter(userId, FragmentsCounter, fragments);
    }

    /** addTagToArray. */
    method AddTagToArray(userId: string, tag: string)
      requires Valid()
      modifies this`players
      ensures Valid()
      ensures players == PushTag(old(players), userId, tag)
    {
      players := PushTag(players, userId, tag);
    }

    /** removeTagFromArray. */
    method RemoveTagFromArray(userId: string, tag: string)
      requires Valid()
      modifies this`players
      ensures Valid()
      ensures players == PullTag(old(players), userId, tag)
    {
      players := PullTag(players, userId, tag);
    }

    // -------------------------------------------------------------------
    // Gift inbox

    /** addGiftToInbox: a resource gift goes to the end of the inbox. */
    method AddGiftToInbox(fromUserId: string, toUserId: string, amounts: Amounts, timestamp: int)
      modifies this`inbox
      ensures inbox == old(inbox) + [Gift(fromUserId, toUserId, None, amounts, timestamp)]
    {
      inbox := inbox + [Gift(fromUserId, toUserId, None, amounts, timestamp)];
    }

    /** removeGiftFromInbox: with a card id, delete the first gift to the
        user carrying it; otherwise take the first gift from `fromUserId`,
        subtract every defined argument from its fields, and delete it if
        all nine are then at most 0 or write it back if not. Without a card
        id and with no such gift, the source reads a field of the null
        `findOne` result and throws: NoGiftToSettle, with nothing written. */
    method RemoveGiftFromInbox(userId: string, fromUserId: string, cardId: Option<string>, d: Deltas)
      returns (r: Result<Removal>)
      modifies this`inbox
      ensures r.Err? <==> !CanSettle(old(inbox), userId, fromUserId, cardId)
      ensures r.Err? ==> r.error == NoGiftToSettle && inbox == old(inbox)
      ensures r.Ok? ==> (r.value, inbox) == Settle(old(inbox), userId, fromUserId, cardId, d)
    {
      if Truthy(cardId) {
        var i := FindFirst(inbox, ByCard(userId, cardId.value));
        if i < |inbox| {
          inbox := Without(inbox, i);
          r := Ok(CardGiftDeleted(true));
        } else {
          r := Ok(CardGiftDeleted(false));
        }
      } else {
        var i := FindFirst(inbox, Between(fromUserId, userId));
        if i == |inbox| {
          return Err(NoGiftToSettle);
        }
        var gift := inbox[i];
        var a := SubtractDefined(gift.amounts, d);
        gift := gift.(amounts := a);
        if Settled(gift.amounts) {
          inbox := Without(inbox, i);
          r := Ok(GiftDeleted);
        } else {
          inbox := inbox[i := gift];
          r := Ok(GiftsRemain);
        }
      }
    }

    /** rejectGift's extra grabs, extra drops and currency credits, each
        sent when its argument is defined. */
    method CreditBoostsBack(userId: string, d: Deltas)
      requires Valid()
      modifies this`players
      ensures Valid()
      ensures players == CreditBoosts(old(players), userId, d)
    {
      ghost var ps0 := players;
      var acknowledged: bool;
      if d.extraGrabs.Some? {
        acknowledged := UpdateExtraGrabs(userId, d.extraGrabs.value);
      } else {
        CreditZero(players, userId, ExtraGrabsCounter);
      }
      ghost var ps1 := players;
      assert ps1 == Credit(ps0, userId, ExtraGrabsCounter, OrZero(d.extraGrabs));
      if d.extraDrops.Some? {
        acknowledged := UpdateExtraDrops(userId, d.extraDrops.value);
      } else {
        CreditZero(players, userId, ExtraDropsCounter);
      }
      ghost var ps2 := players;
      assert ps2 == Credit(ps1, userId, ExtraDropsCounter, OrZero(d.extraDrops));
      if d.currency.Some? {
        acknowledged := UpdatePlayerCurrency(userId, d.currency.value);
      } else {
        CreditZero(players, userId, CurrencyCounter);
      }
      assert players == Credit(ps2, userId, CurrencyCounter, OrZero(d.currency));
    }

    /** rejectGift's parts and fragments credits, each sent when its
        argument is defined. */
    method CreditMaterialsBack(userId: string, d: Deltas)
      requires Valid()
      modifies this`players
      ensures Valid()
      ensures players == Credit(Credit(old(players), userId, PartsCounter, OrZero(d.parts)),
                                userId, FragmentsCounter, OrZero(d.fragments))
    {
      ghost var ps0 := players;
      var acknowledged: bool;
      if d.parts.Some? {
        acknowledged := UpdatePlayerParts(userId, d.parts.value);
      } else {
        CreditZero(players, userId, PartsCounter);
      }
      ghost var ps1 := players;
      assert ps1 == Credit(ps0, userId, PartsCounter, OrZero(d.parts));
      if d.fragments.Some? {
        acknowledged := UpdatePlayerFragments(userId, d.fragments.value);
      } else {
        CreditZero(players, userId, FragmentsCounter);
      }
      assert players == Credit(ps1, userId, FragmentsCounter, OrZero(d.fragments));
    }

    /** rejectGift's credits in the source's order. Extra grabs, extra
        drops and currency go first. A defined dust argument then calls an
        update function the file does not define, which throws
        DustUpdateUndefined with those three credits already made. Otherwise
        parts and fragments follow. */
    method CreditBack(userId: string, d: Deltas) returns (r: Result<()>)
      requires Valid()
      modifies this`players
      ensures Valid()
      ensures r.Err? <==> DustsDefined(d)
      ensures r.Err? ==> r.error == DustUpdateUndefined && players == CreditBoosts(old(players), userId, d)
      ensures r.Ok? ==> players == CreditDeltas(old(players), userId, d)
    {
      CreditBoostsBack(userId, d);
      if DustsDefined(d) {
        return Err(DustUpdateUndefined);
      }
      CreditMaterialsBack(userId, d);
      r := Ok(());
    }

    /** rejectGift: the card goes back to the sender, the defined amounts
        are credited back to the sender, and the gift is settled as by
        removeGiftFromInbox. It returns nothing; a throw is an error result.
        Either throw comes after the card transfer and the credits made so
        far, which stay: a defined dust argument (after the extra grabs,
        extra drops and currency credits), or no gift between the two
        players to settle (after all the credits). */
    method RejectGift(userId: string, fromUserId: string, cardId: Option<string>, d: Deltas)
      returns (r: Result<()>)
      requires Valid()
      modifies this`cards, this`players, this`inbox
      ensures Valid()
      ensures cards == if Truthy(cardId) then TransferToPlayer(old(cards), cardId.value, fromUserId) else old(cards)
      ensures DustsDefined(d) ==>
                && r == Err(DustUpdateUndefined)
                && players == CreditBoosts(old(players), fromUserId, d)
                && inbox == old(inbox)
      ensures !DustsDefined(d) ==> players == CreditDeltas(old(players), fromUserId, d)
      ensures !DustsDefined(d) && !CanSettle(old(inbox), userId, fromUserId, cardId) ==>
                r == Err(NoGiftToSettle) && inbox == old(inbox)
      ensures !DustsDefined(d) && CanSettle(old(inbox), userId, fromUserId, cardId) ==>
                r.Ok? && inbox == Settle(old(inbox), userId, fromUserId, cardId, d).1
      ensures userId != fromUserId && userId in old(players) ==> players[userId] == old(players)[userId]
    {
      if Truthy(cardId) {
        var matched := TransferCardToAnotherPlayer(cardId.value, fromUserId);
      }
      r := CreditBack(fromUserId, d);
      if r.Err? {
        return;
      }
      var removal := RemoveGiftFromInbox(userId, fromUserId, cardId, d);
      if removal.Err? {
        return Err(removal.error);
      }
    }

    /** acceptGift: scan the gifts from `fromUserId` to `userId` for the
        first one whose camelCase properties equal the arguments; on a hit,
        credit the user and settle the inbox as removeGiftFromInbox does.

        A hit fixes the arguments (AcceptMatchesOnly): the card id, extra
        grabs, extra drops and the four dusts are undefined, and currency,
        parts and fragments are defined. So of the source's credit branches
        only the currency, parts and fragments ones can run, and they are
        the only ones written here. */
    method AcceptGift(userId: string, fromUserId: string, cardId: Option<string>, d: Deltas)
      requires Valid()
      modifies this`players, this`inbox
      ensures Valid()
      ensures AcceptIndex(old(inbox), userId, fromUserId, cardId, d) < |old(inbox)| ==>
                && players == CreditDeltas(old(players), userId, d)
                && inbox == Settle(old(inbox), userId, fromUserId, cardId, d).1
      ensures AcceptIndex(old(inbox), userId, fromUserId, cardId, d) == |old(inbox)| ==>
                players == old(players) && inbox == old(inbox)
    {
      var gifts := inbox;
      var i := 0;
      while i < |gifts|
        invariant 0 <= i <= |gifts|
        invariant gifts == old(inbox) && inbox == old(inbox) && players == old(players)
        invariant forall j :: 0 <= j < i ==> !AcceptHit(gifts[j], userId, fromUserId, cardId, d)
      {
        var gift := gifts[i];
        if AcceptHit(gift, userId, fromUserId, cardId, d) {
          AcceptMatchesOnly(gift, cardId, d);
          CreditZero(players, userId, ExtraGrabsCounter);
          CreditZero(players, userId, ExtraDropsCounter);
          var acknowledged: bool;
          if d.currency.Some? {
            acknowledged := UpdatePlayerCurrency(userId, d.currency.value);
          }
          if d.parts.Some? {
            acknowledged := UpdatePlayerParts(userId, d.parts.value);
          }
          if d.fragments.Some? {
            acknowledged := UpdatePlayerFragments(userId, d.fragments.value);
          }
          var removal := RemoveGiftFromInbox(userId, fromUserId, cardId, d);
          return;
        }
        i := i + 1;
      }
    }
  }
}
