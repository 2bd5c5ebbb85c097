/** The `activecards` collection as a map from card id to card document,
    and the meaning of every update the database layer sends to it. Each
    function is the effect of one MongoDB `updateOne`/`updateMany` call:
    the documents its filter matches get its `$set`, no other document
    changes. */
module CardStore {
  import opened Records

  type CardMap = map<string, Card>

  /** Every document is stored under its own `card_id`. */
  predicate KeyedById(m: CardMap) {
    forall id :: id in m ==> m[id].cardId == id
  }

  /** Filter of addCardToUserCollection: `{card_id, user_id: ""}`. */
  predicate Claimable(m: CardMap, cardId: string) {
    cardId in m && m[cardId].userId == Unclaimed
  }

  /** addCardToUserCollection: compare-and-set of the owner from "" to `userId`. */
  function Claim(m: CardMap, userId: string, cardId: string): (r: CardMap)
    ensures r.Keys == m.Keys
    ensures Claimable(m, cardId) ==> r[cardId].userId == userId
    ensures forall id :: id in m ==> r[id] == m[id] || (id == cardId && Claimable(m, cardId) && r[id] == m[id].(userId := userId))
    ensures !Claimable(m, cardId) ==> r == m
  {
    if Claimable(m, cardId) then m[cardId := m[cardId].(userId := userId)] else m
  }

  /** burnCard's update `{card_id} -> been_burnt: true` (no match: no change). */
  function Burn(m: CardMap, cardId: string): (r: CardMap)
    ensures r.Keys == m.Keys
    ensures cardId in m ==> r[cardId] == m[cardId].(beenBurnt := true)
    ensures forall id :: id in m && id != cardId ==> r[id] == m[id]
  {
    if cardId in m then m[cardId := m[cardId].(beenBurnt := true)] else m
  }

  /** Filter shared by the transfer functions: `{card_id, been_burnt: false}`. */
  predicate Live(m: CardMap, cardId: string) {
    cardId in m && !m[cardId].beenBurnt
  }

  /** transferCardToAnotherPlayer: a card that is not burnt gets owner `newUserId` and an empty tag. */
  function TransferToPlayer(m: CardMap, cardId: string, newUserId: string): (r: CardMap)
    ensures r.Keys == m.Keys
    ensures Live(m, cardId) ==> r[cardId] == m[cardId].(userId := newUserId, tag := "")
    ensures forall id :: id in m && !(id == cardId && Live(m, cardId)) ==> r[id] == m[id]
  {
    if Live(m, cardId) then m[cardId := m[cardId].(userId := newUserId, tag := "")] else m
  }

  /** transferCardToPending: a card that is not burnt gets owner "pending"; its tag stays. */
  function ToPending(m: CardMap, cardId: string): (r: CardMap)
    ensures r.Keys == m.Keys
    ensures Live(m, cardId) ==> r[cardId] == m[cardId].(userId := Pending)
    ensures forall id :: id in m && !(id == cardId && Live(m, cardId)) ==> r[id] == m[id]
  {
    if Live(m, cardId) then m[cardId := m[cardId].(userId := Pending)] else m
  }

  /** Filter of transferCardsByTagToPending: `{user_id, tag, been_burnt: false}`. */
  predicate InTaggedBatch(c: Card, userId: string, tag: string) {
    c.userId == userId && c.tag == tag && !c.beenBurnt
  }

  /** transferCardsByTagToPending: every matching card gets owner "pending". */
  function TagToPending(m: CardMap, userId: string, tag: string): (r: CardMap)
    ensures r.Keys == m.Keys
    ensures forall id :: id in m && InTaggedBatch(m[id], userId, tag) ==> r[id] == m[id].(userId := Pending)
    ensures forall id :: id in m && !InTaggedBatch(m[id], userId, tag) ==> r[id] == m[id]
  {
    map id | id in m :: if InTaggedBatch(m[id], userId, tag) then m[id].(userId := Pending) else m[id]
  }

  /** markDealt: `been_dealt := true` on every listed id present in the store. */
  function MarkDealt(m: CardMap, ids: set<string>): (r: CardMap)
    ensures r.Keys == m.Keys
    ensures forall id :: id in m && id in ids ==> r[id] == m[id].(beenDealt := true)
    ensures forall id :: id in m && id !in ids ==> r[id] == m[id]
  {
    map id | id in m :: if id in ids then m[id].(beenDealt := true) else m[id]
  }

  /** The `card_id`s of a list of cards. */
  function IdsOf(list: seq<Card>): (ids: set<string>)
    ensures forall c :: c in list ==> c.cardId in ids
    ensures forall id :: id in ids ==> exists c :: c in list && c.cardId == id
  {
    set c | c in list :: c.cardId
  }

  lemma IdsOfPush(list: seq<Card>, c: Card)
    ensures IdsOf(list + [c]) == IdsOf(list) + {c.cardId}
  {
  }

  /** One `updateOne({card_id: id}, {$set: {been_dealt: true}})` is markDealt of `{id}`. */
  lemma MarkDealtOne(m: CardMap, id: string)
    ensures (if id in m then m[id := m[id].(beenDealt := true)] else m) == MarkDealt(m, {id})
  {
  }

  /** Filter of resetDealtCards: `{been_dealt: true, user_id: ""}`. */
  predicate Recyclable(c: Card) {
    c.beenDealt && c.userId == Unclaimed
  }

  /** resetDealtCards: `been_dealt := false` on dealt cards nobody owns. */
  function ResetDealt(m: CardMap): (r: CardMap)
    ensures r.Keys == m.Keys
    ensures forall id :: id in m && Recyclable(m[id]) ==> r[id] == m[id].(beenDealt := false)
    ensures forall id :: id in m && !Recyclable(m[id]) ==> r[id] == m[id]
  {
    map id | id in m :: if Recyclable(m[id]) then m[id].(beenDealt := false) else m[id]
  }

  /** Filter of updateCardTag's update: `{card_id, user_id, been_burnt: false}`. */
  predicate Taggable(m: CardMap, userId: string, cardId: string) {
    cardId in m && m[cardId].userId == userId && !m[cardId].beenBurnt
  }

  /** updateCardTag's update: a card the user owns and has not burnt gets `tag`. */
  function SetTag(m: CardMap, userId: string, cardId: string, tag: string): (r: CardMap)
    ensures r.Keys == m.Keys
    ensures Taggable(m, userId, cardId) ==> r[cardId] == m[cardId].(tag := tag)
    ensures forall id :: id in m && !(id == cardId && Taggable(m, userId, cardId)) ==> r[id] == m[id]
  {
    if Taggable(m, userId, cardId) then m[cardId := m[cardId].(tag := tag)] else m
  }

  /** The card-store updates, as one vocabulary, so that properties of
      every sequence of them can be stated. */
  datatype CardOp =
    | ClaimOp(userId: string, cardId: string)
    | BurnOp(cardId: string)
    | TransferOp(cardId: string, newUserId: string)
    | PendingOp(cardId: string)
    | TagPendingOp(userId: string, tag: string)
    | MarkDealtOp(ids: set<string>)
    | ResetDealtOp
    | SetTagOp(userId: string, cardId: string, tag: string)

  function Apply(m: CardMap, op: CardOp): (r: CardMap)
    ensures r.Keys == m.Keys
  {
    match op
    case ClaimOp(u, c) => Claim(m, u, c)
    case BurnOp(c) => Burn(m, c)
    case TransferOp(c, u) => TransferToPlayer(m, c, u)
    case PendingOp(c) => ToPending(m, c)
    case TagPendingOp(u, t) => TagToPending(m, u, t)
    case MarkDealtOp(ids) => MarkDealt(m, ids)
    case ResetDealtOp => ResetDealt(m)
    case SetTagOp(u, c, t) => SetTag(m, u, c, t)
  }

  function ApplyAll(m: CardMap, ops: seq<CardOp>): (r: CardMap)
    ensures r.Keys == m.Keys
    decreases |ops|
  {
    if ops == [] then m else ApplyAll(Apply(m, ops[0]), ops[1..])
  }

  // ---------------------------------------------------------------------
  // Properties of the card store

  /** No update moves a document to another key or changes its `card_id`. */
  lemma ApplyKeepsKeyedById(m: CardMap, op: CardOp)
    requires KeyedById(m)
    ensures KeyedById(Apply(m, op))
  {
  }

  /** `been_burnt` is absorbing: a single update never clears it. */
  lemma BurntStaysBurntByOp(m: CardMap, op: CardOp, id: string)
    requires id in m && m[id].beenBurnt
    ensures Apply(m, op)[id].beenBurnt
  {
  }

  /** `been_burnt` is absorbing along any sequence of card-store updates. */
  lemma {:induction false} BurntStaysBurnt(m: CardMap, ops: seq<CardOp>, id: string)
    requires id in m && m[id].beenBurnt
    ensures ApplyAll(m, ops)[id].beenBurnt
    decreases |ops|
  {
    if ops != [] {
      BurntStaysBurntByOp(m, ops[0], id);
      BurntStaysBurnt(Apply(m, ops[0]), ops[1..], id);
    }
  }

  /** Every sequence of updates keeps documents keyed by their `card_id`. */
  lemma {:induction false} ApplyAllKeepsKeyedById(m: CardMap, ops: seq<CardOp>)
    requires KeyedById(m)
    ensures KeyedById(ApplyAll(m, ops))
    decreases |ops|
  {
    if ops != [] {
      ApplyKeepsKeyedById(m, ops[0]);
      ApplyAllKeepsKeyedById(Apply(m, ops[0]), ops[1..]);
    }
  }

  /** The owner and tag of a burnt card change under no transfer or tag
      update. (Claim can still set the owner of a burnt card whose owner
      is "", because its filter does not mention `been_burnt`.) */
  lemma BurntCardFrozenByTransfers(m: CardMap, op: CardOp, id: string)
    requires id in m && m[id].beenBurnt
    requires op.TransferOp? || op.PendingOp? || op.TagPendingOp? || op.SetTagOp?
    ensures Apply(m, op)[id] == m[id]
  {
  }

  /** The claim is a compare-and-set: once a card is claimed by a real
      user, a second claim by anyone fails and changes nothing. */
  lemma ClaimIsCompareAndSet(m: CardMap, first: string, second: string, cardId: string)
    requires Claimable(m, cardId)
    requires first != Unclaimed
    ensures Claim(m, first, cardId)[cardId].userId == first
    ensures !Claimable(Claim(m, first, cardId), cardId)
    ensures Claim(Claim(m, first, cardId), second, cardId) == Claim(m, first, cardId)
  {
  }

  /** A claim changes an owner only from "" (unclaimed). */
  lemma ClaimOnlyFromUnclaimed(m: CardMap, userId: string, cardId: string, id: string)
    requires id in m
    requires Claim(m, userId, cardId)[id].userId != m[id].userId
    ensures m[id].userId == Unclaimed && id == cardId
  {
  }

  /** The gift life cycle of a card: "" -> a -> "pending" -> b. While it is
      pending nobody can claim it; at the end it belongs to b, untagged and
      not burnt, and no other card has changed. */
  lemma {:induction false} GiftLifeCycle(m: CardMap, cardId: string, a: string, b: string, intruder: string)
    requires Claimable(m, cardId) && !m[cardId].beenBurnt
    requires a != Unclaimed
    ensures var m1 := Claim(m, a, cardId);
            var m2 := ToPending(m1, cardId);
            var m3 := TransferToPlayer(m2, cardId, b);
            && m1[cardId].userId == a
            && m2[cardId].userId == Pending
            && Claim(m2, intruder, cardId) == m2
            && m3[cardId] == m[cardId].(userId := b, tag := "")
            && forall id :: id in m && id != cardId ==> m3[id] == m[id]
  {
    var m1 := Claim(m, a, cardId);
    var m2 := ToPending(m1, cardId);
    assert Live(m1, cardId);
    assert m2[cardId] == m[cardId].(userId := Pending);
    assert !Claimable(m2, cardId);
    assert Live(m2, cardId);
  }

  /** markDealt is idempotent. */
  lemma MarkDealtIdempotent(m: CardMap, ids: set<string>)
    ensures MarkDealt(MarkDealt(m, ids), ids) == MarkDealt(m, ids)
  {
  }

  /** Marking ids one batch after another is marking their union; this is
      what lets markDealt's loop be one update per listed card. */
  lemma MarkDealtUnion(m: CardMap, a: set<string>, b: set<string>)
    ensures MarkDealt(MarkDealt(m, a), b) == MarkDealt(m, a + b)
  {
    var l := MarkDealt(MarkDealt(m, a), b);
    var r := MarkDealt(m, a + b);
    assert l.Keys == r.Keys;
    forall id | id in l ensures l[id] == r[id] {
      if id in a && id in b {
        assert l[id] == m[id].(beenDealt := true).(beenDealt := true);
      }
    }
  }

  /** The drop-pool cycle: after a reset, every card nobody owns is
      undealt again, while a card somebody owns keeps its flag. */
  lemma ResetRecyclesUnclaimed(m: CardMap, id: string)
    requires id in m
    ensures m[id].userId == Unclaimed ==> !ResetDealt(m)[id].beenDealt
    ensures m[id].userId != Unclaimed ==> ResetDealt(m)[id] == m[id]
  {
  }

  /** resetDealtCards is idempotent. */
  lemma ResetDealtIdempotent(m: CardMap)
    ensures ResetDealt(ResetDealt(m)) == ResetDealt(m)
  {
  }

  /** Dealing cards that nobody owns and then resetting gives back the
      store as it was, when those cards were not dealt before. */
  lemma ResetUndoesMarkOfUnclaimed(m: CardMap, ids: set<string>)
    requires forall id :: id in m ==> !m[id].beenDealt
    requires forall id :: id in ids && id in m ==> m[id].userId == Unclaimed
    ensures ResetDealt(MarkDealt(m, ids)) == m
  {
    var r := ResetDealt(MarkDealt(m, ids));
    forall id | id in m ensures r[id] == m[id] {
      if id in ids {
        assert MarkDealt(m, ids)[id] == m[id].(beenDealt := true);
        assert r[id] == m[id].(beenDealt := true).(beenDealt := false);
      }
    }
  }
}
