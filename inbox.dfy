/** The `giftinbox` collection as a sequence of gift documents in the
    collection's natural order, which is the order in which `findOne`,
    `deleteOne` and `updateOne` meet them: each acts on the first document
    its filter matches. */
module GiftInbox {
  import opened Records

  /** The two filters the inbox is queried with. */
  datatype Query =
    | ByCard(toUserId: string, cardId: string)         // {to_user_id, card_id}
    | Between(fromUserId: string, toUserId: string)    // {from_user_id, to_user_id}

  predicate Hits(g: Gift, q: Query) {
    match q
    case ByCard(to, c) => g.toUserId == to && g.cardId == Some(c)
    case Between(from, to) => g.fromUserId == from && g.toUserId == to
  }

  /** Position of the first document the filter matches; |inbox| if none. */
  function FindFirst(inbox: seq<Gift>, q: Query): (i: nat)
    ensures i <= |inbox|
    ensures i < |inbox| ==> Hits(inbox[i], q)
    ensures forall j :: 0 <= j < i ==> !Hits(inbox[j], q)
    decreases |inbox|
  {
    if inbox == [] then 0
    else if Hits(inbox[0], q) then 0
    else 1 + FindFirst(inbox[1..], q)
  }

  /** A document appended behind every match is not the first match. */
  lemma {:induction false} FindFirstAppend(inbox: seq<Gift>, g: Gift, q: Query)
    ensures FindFirst(inbox + [g], q)
         == if FindFirst(inbox, q) < |inbox| || Hits(g, q) then FindFirst(inbox, q) else |inbox| + 1
    decreases |inbox|
  {
    if inbox == [] {
      assert [] + [g] == [g];
      assert [g][1..] == [];
    } else {
      assert (inbox + [g])[0] == inbox[0];
      assert (inbox + [g])[1..] == inbox[1..] + [g];
      FindFirstAppend(inbox[1..], g, q);
    }
  }

  /** The inbox without position i: `deleteOne` on the first match. */
  function Without(inbox: seq<Gift>, i: nat): (r: seq<Gift>)
    requires i < |inbox|
    ensures |r| == |inbox| - 1
    ensures r[..i] == inbox[..i] && r[i..] == inbox[i + 1..]
  {
    inbox[..i] + inbox[i + 1..]
  }

  // ---------------------------------------------------------------------
  // Quantities

  /** The in-place `gift.field -= argument` of every defined argument. */
  function Subtract(a: Amounts, d: Deltas): (r: Amounts)
    ensures forall res :: Amount(r, res) == Amount(a, res) - OrZero(Delta(d, res))
  {
    Amounts(
      a.extraGrabs - OrZero(d.extraGrabs),
      a.extraDrops - OrZero(d.extraDrops),
      a.currency - OrZero(d.currency),
      a.dominantDust - OrZero(d.dominantDust),
      a.submissiveDust - OrZero(d.submissiveDust),
      a.conceptDust - OrZero(d.conceptDust),
      a.objectDust - OrZero(d.objectDust),
      a.parts - OrZero(d.parts),
      a.fragments - OrZero(d.fragments))
  }

  /** The in-place `gift.field -= argument` of removeGiftFromInbox, one
      field per defined argument; split by kind of quantity. */
  method SubtractDefined(amounts: Amounts, d: Deltas) returns (a: Amounts)
    ensures a == Subtract(amounts, d)
  {
    a := SubtractBoosts(amounts, d);
    a := SubtractDusts(a, d);
    a := SubtractMaterials(a, d);
  }

  method SubtractBoosts(amounts: Amounts, d: Deltas) returns (a: Amounts)
    ensures a == amounts.(extraGrabs := amounts.extraGrabs - OrZero(d.extraGrabs),
                          extraDrops := amounts.extraDrops - OrZero(d.extraDrops),
                          currency := amounts.currency - OrZero(d.currency))
  {
    a := amounts;
    if d.extraGrabs.Some? { a := a.(extraGrabs := a.extraGrabs - d.extraGrabs.value); }
    if d.extraDrops.Some? { a := a.(extraDrops := a.extraDrops - d.extraDrops.value); }
    if d.currency.Some? { a := a.(currency := a.currency - d.currency.value); }
  }

  method SubtractDusts(amounts: Amounts, d: Deltas) returns (a: Amounts)
    ensures a == amounts.(dominantDust := amounts.dominantDust - OrZero(d.dominantDust),
                          submissiveDust := amounts.submissiveDust - OrZero(d.submissiveDust),
                          conceptDust := amounts.conceptDust - OrZero(d.conceptDust),
                          objectDust := amounts.objectDust - OrZero(d.objectDust))
  {
    a := amounts;
    if d.dominantDust.Some? { a := a.(dominantDust := a.dominantDust - d.dominantDust.value); }
    if d.submissiveDust.Some? { a := a.(submissiveDust := a.submissiveDust - d.submissiveDust.value); }
    if d.conceptDust.Some? { a := a.(conceptDust := a.conceptDust - d.conceptDust.value); }
    if d.objectDust.Some? { a := a.(objectDust := a.objectDust - d.objectDust.value); }
  }

  method SubtractMaterials(amounts: Amounts, d: Deltas) returns (a: Amounts)
    ensures a == amounts.(parts := amounts.parts - OrZero(d.parts),
                          fragments := amounts.fragments - OrZero(d.fragments))
  {
    a := amounts;
    if d.parts.Some? { a := a.(parts := a.parts - d.parts.value); }
    if d.fragments.Some? { a := a.(fragments := a.fragments - d.fragments.value); }
  }

  /** The deletion test of removeGiftFromInbox: every quantity is at most 0. */
  predicate Settled(a: Amounts) {
    && a.extraGrabs <= 0 && a.extraDrops <= 0 && a.currency <= 0
    && a.dominantDust <= 0 && a.submissiveDust <= 0 && a.conceptDust <= 0
    && a.objectDust <= 0 && a.parts <= 0 && a.fragments <= 0
  }

  lemma SettledMeans(a: Amounts)
    ensures Settled(a) <==> forall res :: Amount(a, res) <= 0
  {
    if forall res :: Amount(a, res) <= 0 {
      assert Amount(a, ExtraGrabs) <= 0 && Amount(a, ExtraDrops) <= 0 && Amount(a, Currency) <= 0;
      assert Amount(a, DominantDust) <= 0 && Amount(a, SubmissiveDust) <= 0 && Amount(a, ConceptDust) <= 0;
      assert Amount(a, ObjectDust) <= 0 && Amount(a, Parts) <= 0 && Amount(a, Fragments) <= 0;
    }
  }

  /** Every quantity of a gift, each as a defined argument. */
  function AllOf(a: Amounts): (d: Deltas)
    ensures forall res :: Delta(d, res) == Some(Amount(a, res))
  {
    Deltas(Some(a.extraGrabs), Some(a.extraDrops), Some(a.currency), Some(a.dominantDust),
           Some(a.submissiveDust), Some(a.conceptDust), Some(a.objectDust), Some(a.parts),
           Some(a.fragments))
  }

  // ---------------------------------------------------------------------
  // removeGiftFromInbox

  /** What removeGiftFromInbox returns: the outcome of the card path's
      `deleteOne`, the resource path's `deleteOne`, or its message that
      gifts from this user remain. */
  datatype Removal = CardGiftDeleted(deleted: bool) | GiftDeleted | GiftsRemain

  /** The resource path dereferences the gift `findOne` returned, so it
      needs a gift from `fromUserId` to `userId`. */
  predicate CanSettle(inbox: seq<Gift>, userId: string, fromUserId: string, cardId: Option<string>) {
    Truthy(cardId) || FindFirst(inbox, Between(fromUserId, userId)) < |inbox|
  }

  /** The effect of removeGiftFromInbox on the inbox. */
  function Settle(inbox: seq<Gift>, userId: string, fromUserId: string, cardId: Option<string>, d: Deltas): (r: (Removal, seq<Gift>))
    requires CanSettle(inbox, userId, fromUserId, cardId)
    ensures Truthy(cardId) ==> r.0.CardGiftDeleted?
    ensures Truthy(cardId) ==> (r.0.deleted <==> FindFirst(inbox, ByCard(userId, cardId.value)) < |inbox|)
    ensures !Truthy(cardId) ==>
      var i := FindFirst(inbox, Between(fromUserId, userId));
      (r.0 == GiftDeleted <==> Settled(Subtract(inbox[i].amounts, d))) && (r.0 != GiftDeleted ==> r.0 == GiftsRemain)
  {
    if Truthy(cardId) then
      var i := FindFirst(inbox, ByCard(userId, cardId.value));
      if i < |inbox| then (CardGiftDeleted(true), Without(inbox, i)) else (CardGiftDeleted(false), inbox)
    else
      var i := FindFirst(inbox, Between(fromUserId, userId));
      var g := inbox[i].(amounts := Subtract(inbox[i].amounts, d));
      if Settled(g.amounts) then (GiftDeleted, Without(inbox, i)) else (GiftsRemain, inbox[i := g])
  }

  /** Card path: exactly the first gift to `userId` carrying that card id
      is deleted, and nothing at all changes when there is none. */
  lemma CardPathDeletesFirstCardGift(inbox: seq<Gift>, userId: string, fromUserId: string, cardId: string, d: Deltas)
    requires cardId != ""
    ensures var i := FindFirst(inbox, ByCard(userId, cardId));
            var r := Settle(inbox, userId, fromUserId, Some(cardId), d).1;
            && (i == |inbox| ==> r == inbox)
            && (i < |inbox| ==> inbox[i].toUserId == userId && inbox[i].cardId == Some(cardId)
                                && r[..i] == inbox[..i] && r[i..] == inbox[i + 1..])
  {
  }

  /** Resource path: only the first gift from `fromUserId` to `userId`
      changes; it loses exactly the defined amounts (every other field is
      kept), and it is deleted iff every reduced quantity is at most 0.
      Every other gift keeps its place and its contents. */
  lemma ResourcePathTouchesOnlyFirstGift(inbox: seq<Gift>, userId: string, fromUserId: string, cardId: Option<string>, d: Deltas)
    requires !Truthy(cardId)
    requires FindFirst(inbox, Between(fromUserId, userId)) < |inbox|
    ensures var i := FindFirst(inbox, Between(fromUserId, userId));
            var (outcome, r) := Settle(inbox, userId, fromUserId, cardId, d);
            var reduced := Subtract(inbox[i].amounts, d);
            && inbox[i].fromUserId == fromUserId && inbox[i].toUserId == userId
            && r[..i] == inbox[..i]
            && (outcome == GiftDeleted <==> forall res :: Amount(reduced, res) <= 0)
            && (outcome == GiftDeleted ==> r[i..] == inbox[i + 1..])
            && (outcome == GiftsRemain ==> |r| == |inbox| && r[i + 1..] == inbox[i + 1..]
                                           && r[i] == inbox[i].(amounts := reduced))
  {
    var i := FindFirst(inbox, Between(fromUserId, userId));
    SettledMeans(Subtract(inbox[i].amounts, d));
  }

  /** Settling with amounts that are not negative never raises a stored
      quantity: what remains of a gift only shrinks. */
  lemma RemainingNeverGrows(inbox: seq<Gift>, userId: string, fromUserId: string, cardId: Option<string>, d: Deltas)
    requires !Truthy(cardId)
    requires FindFirst(inbox, Between(fromUserId, userId)) < |inbox|
    requires forall res :: OrZero(Delta(d, res)) >= 0
    ensures var i := FindFirst(inbox, Between(fromUserId, userId));
            var (outcome, r) := Settle(inbox, userId, fromUserId, cardId, d);
            outcome == GiftsRemain ==> forall res :: Amount(r[i].amounts, res) <= Amount(inbox[i].amounts, res)
  {
  }

  /** Round trip: a gift just added, with no earlier gift between the same
      two players, is deleted by settling it with all of its own amounts,
      and the inbox is as it was before the add. */
  lemma AddThenSettleAll(inbox: seq<Gift>, fromUserId: string, toUserId: string, a: Amounts, timestamp: int)
    requires FindFirst(inbox, Between(fromUserId, toUserId)) == |inbox|
    ensures var g := Gift(fromUserId, toUserId, None, a, timestamp);
            FindFirst(inbox + [g], Between(fromUserId, toUserId)) == |inbox|
            && Settle(inbox + [g], toUserId, fromUserId, None, AllOf(a)) == (GiftDeleted, inbox)
  {
    var g := Gift(fromUserId, toUserId, None, a, timestamp);
    FindFirstAppend(inbox, g, Between(fromUserId, toUserId));
    var reduced := Subtract(a, AllOf(a));
    assert forall res :: Amount(reduced, res) == 0;
    SettledMeans(reduced);
    assert Without(inbox + [g], |inbox|) == inbox;
  }

  /** Two equal gifts from one sender: settling the full amount deletes
      the first one only, and the second is still the one the next
      settlement between the two players will act on. */
  lemma TwoGiftsOneSettled(g: Gift)
    ensures var r := Settle([g, g], g.toUserId, g.fromUserId, None, AllOf(g.amounts));
            r == (GiftDeleted, [g]) && FindFirst(r.1, Between(g.fromUserId, g.toUserId)) == 0
  {
    var inbox := [g, g];
    var q := Between(g.fromUserId, g.toUserId);
    assert Hits(inbox[0], q);
    assert FindFirst(inbox, q) == 0;
    var reduced := Subtract(g.amounts, AllOf(g.amounts));
    assert forall res :: Amount(reduced, res) == 0;
    SettledMeans(reduced);
    assert Without(inbox, 0) == [g];
    assert Hits([g][0], q);
  }

  // ---------------------------------------------------------------------
  // acceptGift's matching

  /** The gift properties acceptGift compares against its arguments are
      `cardId`, `extraGrabs`, `extraDrops`, `currency`, `dominantDust`, ...
      A `giftinbox` document stores `card_id`, `extra_grabs`, `extra_drops`,
      `currency`, `dominant_dust`, ...; only `currency`, `parts` and
      `fragments` are spelled the same. */
  function CamelCardId(g: Gift): Option<string> {
    None
  }

  function CamelDeltas(g: Gift): (d: Deltas)
    ensures d.currency == Some(g.amounts.currency)
    ensures d.parts == Some(g.amounts.parts)
    ensures d.fragments == Some(g.amounts.fragments)
  {
    NoDeltas.(currency := Some(g.amounts.currency), parts := Some(g.amounts.parts),
              fragments := Some(g.amounts.fragments))
  }

  /** acceptGift's `===` comparison of every property with its argument. */
  predicate AcceptMatches(g: Gift, cardId: Option<string>, d: Deltas) {
    CamelCardId(g) == cardId && CamelDeltas(g) == d
  }

  /** A stored gift matches only an acceptGift call that leaves the card id
      and all six renamed quantities undefined, and passes the gift's exact
      currency, parts and fragments. */
  lemma AcceptMatchesOnly(g: Gift, cardId: Option<string>, d: Deltas)
    ensures AcceptMatches(g, cardId, d)
        <==> cardId == None && d == NoDeltas.(currency := Some(g.amounts.currency),
                                               parts := Some(g.amounts.parts),
                                               fragments := Some(g.amounts.fragments))
  {
  }

  /** acceptGift's test of one gift of `getGiftsFromUserInInbox(userId, fromUserId)`. */
  predicate AcceptHit(g: Gift, userId: string, fromUserId: string, cardId: Option<string>, d: Deltas) {
    Hits(g, Between(fromUserId, userId)) && AcceptMatches(g, cardId, d)
  }

  /** The first gift acceptGift's loop accepts. */
  function AcceptIndex(inbox: seq<Gift>, userId: string, fromUserId: string, cardId: Option<string>, d: Deltas): (j: nat)
    ensures j <= |inbox|
    ensures j < |inbox| ==> AcceptHit(inbox[j], userId, fromUserId, cardId, d)
    ensures forall k :: 0 <= k < j ==> !AcceptHit(inbox[k], userId, fromUserId, cardId, d)
    ensures j < |inbox| ==> CanSettle(inbox, userId, fromUserId, cardId)
    decreases |inbox|
  {
    if inbox == [] then 0
    else if AcceptHit(inbox[0], userId, fromUserId, cardId, d) then 0
    else 1 + AcceptIndex(inbox[1..], userId, fromUserId, cardId, d)
  }

  // ---------------------------------------------------------------------
  // What the inbox holds

  /** The quantity of one resource over every gift of the inbox. */
  function Total(inbox: seq<Gift>, res: Resource): int
    decreases |inbox|
  {
    if inbox == [] then 0 else Total(inbox[..|inbox| - 1], res) + Amount(inbox[|inbox| - 1].amounts, res)
  }

  lemma {:induction false} TotalAppend(a: seq<Gift>, b: seq<Gift>, res: Resource)
    ensures Total(a + b, res) == Total(a, res) + Total(b, res)
    decreases |b|
  {
    if b == [] {
      assert a + b == a;
    } else {
      var n := |b| - 1;
      assert (a + b)[..|a + b| - 1] == a + b[..n];
      TotalAppend(a, b[..n], res);
    }
  }

  /** Deleting a gift takes its quantity out of the total; writing a gift
      back in its place trades its old quantity for its new one. */
  lemma TotalSplice(inbox: seq<Gift>, i: nat, g: Gift, res: Resource)
    requires i < |inbox|
    ensures Total(Without(inbox, i), res) == Total(inbox, res) - Amount(inbox[i].amounts, res)
    ensures Total(inbox[i := g], res) == Total(inbox, res) - Amount(inbox[i].amounts, res) + Amount(g.amounts, res)
  {
    assert inbox == inbox[..i] + [inbox[i]] + inbox[i + 1..];
    assert inbox[i := g] == inbox[..i] + [g] + inbox[i + 1..];
    TotalAppend(inbox[..i] + [inbox[i]], inbox[i + 1..], res);
    TotalAppend(inbox[..i], [inbox[i]], res);
    TotalAppend(inbox[..i] + [g], inbox[i + 1..], res);
    TotalAppend(inbox[..i], [g], res);
    TotalAppend(inbox[..i], inbox[i + 1..], res);
    assert Total([inbox[i]], res) == Amount(inbox[i].amounts, res) by { assert [inbox[i]][..0] == []; }
    assert Total([g], res) == Amount(g.amounts, res) by { assert [g][..0] == []; }
  }

  // ---------------------------------------------------------------------
  // acceptGift settles a gift other than the one it accepted

  /** As written, acceptGift credits the amounts of the gift it matched,
      but removeGiftFromInbox reduces the FIRST gift between the two
      players. With an earlier gift holding less currency than the matched
      one, that earlier gift is deleted, the matched gift stays, and the
      same acceptGift call matches it again: the currency credited exceeds
      what the inbox held. */
  lemma AcceptSettlesTheWrongGift(first: Gift, second: Gift)
    requires first.fromUserId == second.fromUserId && first.toUserId == second.toUserId
    requires first.amounts.currency != second.amounts.currency
    requires Settled(Subtract(first.amounts, CamelDeltas(second)))
    ensures var (to, from, d) := (second.toUserId, second.fromUserId, CamelDeltas(second));
            var inbox := [first, second];
            && AcceptIndex(inbox, to, from, None, d) == 1
            && Settle(inbox, to, from, None, d) == (GiftDeleted, [second])
            && AcceptIndex([second], to, from, None, d) == 0
            && Total([second], Currency) + second.amounts.currency != Total(inbox, Currency)
  {
    var (to, from, d) := (second.toUserId, second.fromUserId, CamelDeltas(second));
    var inbox := [first, second];
    AcceptMatchesOnly(first, None, d);
    assert !AcceptHit(inbox[0], to, from, None, d);
    assert AcceptHit(inbox[1], to, from, None, d);
    assert inbox[1..] == [second];
    assert Hits(inbox[0], Between(from, to));
    assert Without(inbox, 0) == [second];
    assert [second][..0] == [] && inbox[..1] == [first] && [first][..0] == [];
  }

  /** The evident intent: settle the gift that was accepted. */
  function SettleAccepted(inbox: seq<Gift>, j: nat, d: Deltas): (r: (Removal, seq<Gift>))
    requires j < |inbox|
    ensures r.0 == GiftDeleted <==> Settled(Subtract(inbox[j].amounts, d))
    ensures r.0 != GiftDeleted ==> r.0 == GiftsRemain && r.1 == inbox[j := inbox[j].(amounts := Subtract(inbox[j].amounts, d))]
    ensures r.0 == GiftDeleted ==> r.1 == Without(inbox, j)
  {
    var g := inbox[j].(amounts := Subtract(inbox[j].amounts, d));
    if Settled(g.amounts) then (GiftDeleted, Without(inbox, j)) else (GiftsRemain, inbox[j := g])
  }

  /** Settling the accepted gift conserves currency, parts and fragments:
      what the user is credited is exactly what leaves the inbox. */
  lemma AcceptedSettlementConserves(inbox: seq<Gift>, userId: string, fromUserId: string, cardId: Option<string>, d: Deltas, res: Resource)
    requires AcceptIndex(inbox, userId, fromUserId, cardId, d) < |inbox|
    requires res == Currency || res == Parts || res == Fragments
    ensures var j := AcceptIndex(inbox, userId, fromUserId, cardId, d);
            Total(SettleAccepted(inbox, j, d).1, res) + OrZero(Delta(d, res)) == Total(inbox, res)
  {
    var j := AcceptIndex(inbox, userId, fromUserId, cardId, d);
    AcceptMatchesOnly(inbox[j], cardId, d);
    var g := inbox[j].(amounts := Subtract(inbox[j].amounts, d));
    TotalSplice(inbox, j, g, res);
    assert Amount(g.amounts, res) == 0;
  }
}
