# Card bot database layer, in Dafny

This project models `database.js` of a Discord card-collecting bot. The
file is the bot's MongoDB layer. It works on four collections:
- `activecards`: the cards in the drop pool and in players' collections.
- `tempcards`: a second card collection, whose ids new cards must also avoid.
- `players`: each player's counters and tag list.
- `giftinbox`: resource gifts waiting to be accepted or rejected.

The model holds the collections in one `Database.Store` class, each as a field:
- `cards`: a map from `card_id` to a `Card` record.
- `tempCards`: the set of ids in `tempcards`.
- `players`: a map from `user_id` to a `Player` record.
- `inbox`: the gift documents in natural order, as a sequence.

Every exported function of the core is a method of that class. The
lookups are functions.

The meaning of each MongoDB call is a pure function in its own module:
- `CardStore`: the `updateOne`/`updateMany` calls on cards.
- `Drops`: addCards' id search and getCards' weighted draw.
- `PlayerStore`: `$inc`, `$push` and `$pull` on players, and the tag-prefix filter.
- `GiftInbox`: `findOne`/`deleteOne` on the first matching gift, and acceptGift's comparison.

Each method is proved to leave exactly that function's result in its
fields or to return it. The properties of the store are lemmas about those
functions:
- A burnt card stays burnt.
- The claim is a compare-and-set.
- The ownership cycle runs "" → user → "pending" → user.
- The dealt flag is set by markDealt and reset by resetDealtCards.
- The offer holds min(3, pool size) distinct undealt cards, at most one of them Ultra.
- Counter credits add up and undo each other.
- Pulling a tag right after pushing it is pulling it alone. When the player did not have the tag, push and pull cancel out.
- Adding a gift and then settling it in full leaves the inbox as before, provided no earlier gift between the same two players is in the inbox. Otherwise the earlier gift is the one settled.

Inputs the program gets from outside become parameters:
- The ids `generateId` would produce come in as a finite stream `candidates`.
- The five `$sample` results come in as `samples`. `Drops.IsSample` states what `$sample` guarantees about them.
- The three `Math.random()` values come in as `rolls` in [0, 1).
- The gift timestamp comes in as an integer.

A field the source spells in snake_case (`card_id`) is camelCase here
(`cardId`). An argument the caller may leave `undefined` is an `Option`.

## Model

| member | source | states |
|---|---|---|
| Database.Store.AddCards | database.js:18-44 | the batch has exactly max(0, quantity) copies of the template; copy i has the i-th usable candidate id as `card_id` and the batch size as `quantity`; every id is in neither `tempcards` nor `activecards`; the store is not written; it fails only when the stream runs out of usable ids |
| Database.Store.GenerateUniqueId | database.js:26-32 | the do-while stops at the first candidate in neither store, which is the next usable id of the stream; otherwise no usable id is left |
| Drops.FreshIds | database.js:26-32 | the usable candidates in stream order: each is in neither store and comes from the stream, and every usable candidate is among them |
| Drops.FreshIdsPrefix | database.js:24-33 | the usable ids of a prefix of the stream are a prefix of the usable ids, so the batch takes the first ones |
| Drops.FreshIdsStep | database.js:27-32 | one more candidate adds itself to the usable ids exactly when neither store holds it |
| Drops.RepeatedCandidateRepeats | database.js:27-32 | a candidate the stream offers twice goes to two copies: ids are checked against the stores only, not against the batch |
| Drops.DistinctFreshIds | database.js:24-42 | corrected id search: pairwise distinct, usable ids, covering every usable candidate |
| Drops.DistinctFreshIdsAgree | database.js:24-42 | on a stream without repeats, the corrected search gives the same ids as the as-written one |
| Drops.RepeatedCandidateUsedOnce | database.js:24-42 | the corrected search hands out a repeated candidate once |
| Database.Store.GetCards | database.js:111-153 | the offer is the three draws without replacement from the concatenated samples; it has min(3, pool size) cards, all from the pool; they are distinct cards, each stored as offered, undealt and of one of the five rarities; at most one is Ultra; the store is not written |
| Drops.WeightedArray | database.js:127-136 | the loop over the rarities builds the samples' concatenation in rarity order |
| Drops.SelectCards | database.js:139-146 | the three splices keep exactly the cards Draw picks |
| Drops.Concat | database.js:127-136 | every card of the weighted array comes from one of the samples |
| Drops.PoolCardFromItsSample | database.js:118-136 | a card of the pool is stored as sampled, undealt, and in the sample for its own rarity |
| Drops.PoolDistinct | database.js:127-136 | the weighted array holds each card at most once, since samples are distinct and rarities differ |
| Drops.CountRarityAppend | database.js:135 | counting one rarity is additive over concatenation |
| Drops.CountRarityUniform | database.js:131-132 | a sample of one rarity counts fully for that rarity and zero for any other |
| Drops.PoolRarityBound | database.js:118-136 | each rarity contributes exactly its sample, so at most its weight (100, 70, 20, 5, 1), to the pool |
| Drops.IndexInRange | database.js:141 | `Math.floor(Math.random() * n)` is a valid position when n > 0, and 0 when the array is empty |
| Drops.RemoveAt | database.js:142 | `splice(i, 1)` leaves one card fewer, and exactly that card |
| Drops.Draw | database.js:139-146 | the offer is as long as min(rolls, pool) and a sub-multiset of the pool |
| Drops.DrawStep | database.js:140-145 | one loop turn: a roll picks a position; the card there joins the offer and leaves the pool |
| Drops.DrawDistinct | database.js:139-146 | draws without replacement from distinct cards are distinct |
| Drops.UltraCardIsTheUltraSample | database.js:118-124 | an Ultra card of the pool is the one card of the Ultra sample, whose weight is 1 |
| Drops.AtMostOneUltra | database.js:118-146 | no offer holds two Ultra cards |
| Drops.OfferFromSampling | database.js:111-153 | every offer from a valid sampling is distinct, stored, undealt, of a known rarity, with at most one Ultra |
| Drops.OfferedCardsNotReoffered | database.js:131-166 | once an offer's cards are marked dealt, no later draw can offer them again |
| Database.Store.MarkDealt | database.js:155-170 | one update per listed card leaves the store as markDealt of the listed ids |
| CardStore.MarkDealt | database.js:161-166 | `been_dealt` becomes true exactly on the listed ids present; every other card is unchanged |
| CardStore.IdsOf | database.js:161-162 | the id set holds exactly the `card_id`s of the listed cards |
| CardStore.IdsOfPush | database.js:161 | the ids of a list that grows by one card grow by that card's id |
| CardStore.MarkDealtOne | database.js:162-165 | one `updateOne` of the loop is markDealt of a single id |
| CardStore.MarkDealtUnion | database.js:161-166 | marking batch after batch is marking their union |
| CardStore.MarkDealtIdempotent | database.js:161-166 | marking twice is marking once |
| Database.Store.ResetDealtCards | database.js:410-424 | the store becomes the reset of the old store |
| CardStore.ResetDealt | database.js:416-419 | `been_dealt` becomes false exactly on dealt cards with owner ""; every other card is unchanged |
| CardStore.ResetRecyclesUnclaimed | database.js:416-419 | after a reset every unclaimed card is undealt, and a claimed card is unchanged |
| CardStore.ResetDealtIdempotent | database.js:416-419 | resetting twice is resetting once |
| CardStore.ResetUndoesMarkOfUnclaimed | database.js:161-419 | dealing undealt unclaimed cards and then resetting restores the store |
| Database.Store.AddCardToUserCollection | database.js:172-193 | true iff the card exists with owner "", in which case the owner becomes the user; on false nothing changes; no other card changes |
| CardStore.Claim | database.js:179-182 | compare-and-set of the owner from "" to the user, on that one card |
| CardStore.ClaimIsCompareAndSet | database.js:179-189 | once a real user has claimed a card, any second claim fails and changes nothing |
| CardStore.ClaimOnlyFromUnclaimed | database.js:179-182 | a claim changes an owner only from "", and only on the named card |
| Database.Store.BurnCard | database.js:734-753 | fails with AlreadyBurnt, changing nothing, iff the card is burnt; otherwise burns the card if it exists |
| CardStore.Burn | database.js:744-747 | `been_burnt` becomes true on that card, if present; nothing else changes |
| Database.Store.TransferCardToAnotherPlayer | database.js:794-808 | matches iff the card exists unburnt; then the owner becomes the new user and the tag "" |
| CardStore.TransferToPlayer | database.js:799-802 | only an unburnt card changes: owner := new user, tag := "" |
| Database.Store.TransferCardToPending | database.js:933-947 | matches iff the card exists unburnt; then the owner becomes "pending" |
| CardStore.ToPending | database.js:938-941 | only an unburnt card changes: owner := "pending", tag kept |
| Database.Store.TransferCardsByTagToPending | database.js:949-963 | the store becomes the tag transfer of the old store |
| CardStore.TagToPending | database.js:954-957 | every unburnt card with that owner and tag goes to "pending"; every other card is unchanged |
| Database.Store.UpdateCardTag | database.js:576-599 | CardNotFound, changing nothing, unless the user owns the card; otherwise the tag is set iff the card is unburnt, and the result says whether it was |
| CardStore.SetTag | database.js:591-594 | only a card the user owns and has not burnt gets the tag |
| CardStore.Apply | database.js:172-963 | no card-store update adds or removes a document |
| CardStore.ApplyAll | database.js:172-963 | no sequence of card-store updates adds or removes a document |
| CardStore.ApplyKeepsKeyedById | database.js:172-963 | no update moves a card to another key |
| CardStore.ApplyAllKeepsKeyedById | database.js:172-963 | any sequence of updates keeps cards keyed by `card_id` |
| CardStore.BurntStaysBurntByOp | database.js:744-747 | no single update clears `been_burnt` |
| CardStore.BurntStaysBurnt | database.js:744-957 | `been_burnt` is absorbing along any sequence of card-store updates |
| CardStore.BurntCardFrozenByTransfers | database.js:591-957 | transfers and tag updates leave a burnt card untouched |
| CardStore.GiftLifeCycle | database.js:179-941 | a card goes "" → a → "pending" → b; while pending nobody can claim it; at the end it belongs to b, untagged, and no other card changed |
| Database.Store.CheckIfPlayer | database.js:195-214 | true iff some player document has that `user_id` |
| Database.Store.GetPlayer | database.js:450-463 | the player with that `user_id` when registered, none otherwise |
| Database.Store.GetCardById | database.js:680-694 | the card with that id when it exists unburnt, none otherwise |
| Database.Store.AddPlayer | database.js:51-79 | inserts iff the `user_id` is new, and reports whether it did; an existing player is never overwritten |
| PlayerStore.Register | database.js:63-70 | insert iff absent; every existing player is kept |
| Database.Store.UpdateCounter | database.js:232-349 | an amount of 0 returns true at once and changes nothing; any other amount is added to that counter of that player |
| Database.Store.UpdateExtraGrabs | database.js:232-249 | `extra_grabs` of the player grows by the amount; true |
| Database.Store.UpdateExtraDrops | database.js:251-268 | `extra_drops` of the player grows by the amount; true |
| Database.Store.UpdatePlayerCurrency | database.js:270-289 | `currency` of the player grows by the amount; true |
| Database.Store.UpdatePlayerDust | database.js:291-309 | `dust` of the player grows by the amount; true |
| Database.Store.UpdatePlayerParts | database.js:311-329 | `parts` of the player grows by the amount; true |
| Database.Store.UpdatePlayerFragments | database.js:331-349 | `fragments` of the player grows by the amount; true |
| PlayerStore.Inc | database.js:240-243 | `$inc` changes exactly the one counter, by the amount |
| PlayerStore.Credit | database.js:240-243 | only the named player changes; an absent player matches nothing |
| PlayerStore.CreditZero | database.js:234-236 | crediting 0 changes nothing, which is why returning early is sound |
| PlayerStore.CreditInverse | database.js:240-243 | crediting -a undoes crediting a |
| PlayerStore.CreditAdds | database.js:240-243 | two credits of one counter add up |
| PlayerStore.CreditBoosts | database.js:1163-1168 | each defined extra grabs, extra drops and currency amount goes to its counter of the one player; parts, fragments, dust and other players are unchanged |
| PlayerStore.CreditDeltas | database.js:1163-1180 | each defined extra grabs, extra drops, currency, parts and fragments amount goes to its counter of the one player; dust and other players are unchanged |
| Database.Store.AddTagToArray | database.js:620-635 | the player's tag list gains the tag at its end |
| PlayerStore.PushTag | database.js:626-630 | the tag is appended to that player's list only |
| Database.Store.RemoveTagFromArray | database.js:637-652 | every copy of the tag leaves the player's list |
| PlayerStore.PullTag | database.js:643-647 | that player's list loses every copy of the tag, other players unchanged |
| PlayerStore.RemoveAll | database.js:643-647 | the pulled list lacks the tag; every other tag keeps its number of copies, and the result is a subsequence of the list, so order is kept; the list is unchanged when the tag is absent |
| PlayerStore.RemoveAllAppend | database.js:643-647 | pulling from a concatenation is concatenating the pulls: `$pull` works element by element and keeps order |
| PlayerStore.RemoveAllIdempotent | database.js:643-647 | pulling twice is pulling once |
| PlayerStore.RemoveAllAfterPush | database.js:626-647 | pulling a just-pushed tag gives what pulling gives without the push |
| PlayerStore.PushThenPullRestores | database.js:620-652 | pushing a tag the player did not have and then pulling it restores the player |
| PlayerStore.PushThenPullIsPull | database.js:620-652 | pushing a tag and then pulling it is the same as pulling it alone, also when the tag was already there |
| Database.Store.GetTagSuggestions | database.js:770-792 | a tag is suggested iff the player exists, owns it, and it starts with the input ignoring case; each matching tag appears as often as in the list, in list order; an unknown player gets none; the empty input suggests every tag |
| PlayerStore.UpperChar | database.js:785 | lower-case ASCII letters become upper case, other characters stay |
| PlayerStore.Upper | database.js:785 | upper-casing is per character and keeps the length |
| PlayerStore.StartsWithIgnoringCaseMeans | database.js:785 | the test holds iff the input is no longer than the tag and agrees with it letter by letter, ignoring case |
| PlayerStore.MatchingTags | database.js:784-786 | the filter keeps exactly the matching tags, each with its number of copies, as a subsequence of the list |
| PlayerStore.MatchingTagsAppend | database.js:784-786 | filtering a concatenation is concatenating the filtered parts, so suggestions keep list order |
| PlayerStore.EmptyInputMatchesAll | database.js:784-786 | the empty input keeps the whole list |
| PlayerStore.UpperIdempotent | database.js:785 | upper-casing twice is upper-casing once |
| PlayerStore.SuggestionsIgnoreInputCase | database.js:784-786 | suggestions do not depend on the case of the input |
| Database.Store.AddGiftToInbox | database.js:849-888 | the inbox gains the gift at its end |
| Database.Store.RemoveGiftFromInbox | database.js:1080-1140 | the outcome and the new inbox are those of removeGiftFromInbox's two paths; without a card id and with no gift between the pair it throws NoGiftToSettle and writes nothing |
| GiftInbox.SubtractDefined | database.js:1106-1114 | the in-place subtractions leave each field reduced by its argument when defined |
| GiftInbox.SubtractBoosts | database.js:1106-1108 | grabs, drops and currency are reduced by their defined arguments |
| GiftInbox.SubtractDusts | database.js:1109-1112 | the four dusts are reduced by their defined arguments |
| GiftInbox.SubtractMaterials | database.js:1113-1114 | parts and fragments are reduced by their defined arguments |
| GiftInbox.Subtract | database.js:1106-1114 | every quantity loses its defined argument; an undefined one loses nothing |
| GiftInbox.SettledMeans | database.js:1115-1125 | the deletion test holds iff all nine quantities are at most 0 |
| GiftInbox.FindFirst | database.js:1100-1105 | the position of the first gift the filter matches, or the end |
| GiftInbox.FindFirstAppend | database.js:849-1105 | a gift appended at the end is not a first match when an earlier gift matches |
| GiftInbox.Without | database.js:1101-1126 | `deleteOne` removes exactly that position and keeps the order |
| GiftInbox.AllOf | database.js:1106-1114 | every quantity as a defined argument |
| GiftInbox.Settle | database.js:1099-1134 | the card path deletes the first gift with that card id and says whether it did; the resource path deletes the reduced gift iff it is settled, and otherwise reports that gifts remain |
| GiftInbox.CardPathDeletesFirstCardGift | database.js:1099-1102 | with a card id only the first gift to the user carrying it is deleted, and nothing changes when there is none |
| GiftInbox.ResourcePathTouchesOnlyFirstGift | database.js:1104-1134 | only the first gift between the two players changes: it loses the defined amounts and is deleted iff all nine are at most 0; every other gift keeps its place and contents |
| GiftInbox.RemainingNeverGrows | database.js:1104-1134 | settling with non-negative amounts never raises what remains of a gift |
| GiftInbox.AddThenSettleAll | database.js:849-1127 | when no earlier gift between the same two players is in the inbox, adding a gift and settling all of it restores the inbox |
| GiftInbox.TwoGiftsOneSettled | database.js:1104-1127 | of two equal gifts, full settlement deletes only the first, and the second is next |
| Database.Store.CreditBoostsBack | database.js:1163-1168 | the defined extra grabs, extra drops and currency amounts are credited to the player named |
| Database.Store.CreditMaterialsBack | database.js:1177-1180 | the defined parts and fragments amounts are credited to the player named |
| Database.Store.CreditBack | database.js:1163-1180 | it throws DustUpdateUndefined iff a dust amount is defined, having credited only extra grabs, extra drops and currency; otherwise every defined extra grabs, extra drops, currency, parts and fragments amount is credited |
| Database.Store.RejectGift | database.js:1142-1200 | the card goes back to the sender in every case; a defined dust amount throws after the extra grabs, extra drops and currency credits, with the inbox untouched; otherwise the sender gets every defined non-dust amount, and then either the inbox is settled as removeGiftFromInbox does, or, with no card id and no gift between the pair, it throws NoGiftToSettle with the credits kept; the recipient's document is unchanged |
| GiftInbox.CamelDeltas | database.js:868-1029 | of the camelCase properties acceptGift reads, only currency, parts and fragments exist on a stored gift |
| GiftInbox.AcceptMatchesOnly | database.js:1018-1030 | a gift matches iff the card id, grabs, drops and dusts are undefined and currency, parts and fragments equal the gift's |
| GiftInbox.AcceptIndex | database.js:1016-1030 | the first gift between the two players that matches, and then a gift settlement can find |
| Database.Store.AcceptGift | database.js:996-1079 | with a match the user gets its currency, parts and fragments and the inbox is settled as removeGiftFromInbox does; without one nothing changes |
| GiftInbox.TotalAppend | database.js:1126-1129 | inbox totals add over concatenation |
| GiftInbox.TotalSplice | database.js:1126-1129 | deleting a gift removes its quantity from the total; writing one back trades old for new |
| GiftInbox.AcceptSettlesTheWrongGift | database.js:1017-1127 | as written, acceptGift can settle an earlier gift than the one it credited, so the credited gift survives and can be accepted again |
| GiftInbox.SettleAccepted | database.js:1057-1072 | corrected settlement: the accepted gift itself is reduced, then deleted iff settled |
| GiftInbox.AcceptedSettlementConserves | database.js:1050-1072 | with the correction, the currency, parts or fragments credited equal what leaves the inbox |

## Findings

| source | as written | input that shows it | evidently intended | confidence | as-written member | corrected member |
|---|---|---|---|---|---|---|
| database.js:1017-1072, 1104-1105 | acceptGift credits the first gift that matches its arguments, then calls removeGiftFromInbox, which reduces the first gift between the two players, whichever that is | gift A (currency 50, nothing else) before gift B (currency 100, nothing else), both from x to y; acceptGift(y, x, currency 100, parts 0, fragments 0) credits 100, deletes A and keeps B; the same call then credits 100 again | the accepted gift is the one reduced, so what is credited leaves the inbox | medium, not executed | GiftInbox.AcceptSettlesTheWrongGift | GiftInbox.AcceptedSettlementConserves |
| database.js:26-32 | the retry loop checks a new id against `tempcards` and `activecards` only, so an id already given to an earlier copy of the same batch is accepted again | a stream that yields the same free id twice for quantity 2 gives two cards with one `card_id` | every card of the batch has its own id | medium, not executed | Drops.RepeatedCandidateRepeats | Drops.DistinctFreshIds |

The store methods model the code as written, including both findings.

## Left out

- generateId's randomness: the ids come in as a finite stream. Where the source would retry forever, AddCards returns OutOfCandidateIds when the stream has no usable id left.
- `$sample`'s randomness: Drops.IsSample states what it guarantees and nothing more.
- `Math.random()`: the rolls come in as reals in [0, 1).
- Timestamps (`new Date()`): they come in as an integer.
- Connection handling, logging and swallowed errors are not modelled. Only these throws become error results: the deliberate throws of burnCard and updateCardTag, the call to an undefined dust update in rejectGift, and the read of a null gift in removeGiftFromInbox.
- The driver's result objects are not modelled. Each becomes a boolean (`matchedCount > 0`, `acknowledged`, inserted or not) or a `Removal` outcome. Two functions return nothing at all; they are listed next. Database.Store.RejectGift returns only whether it threw, as does the source, which discards removeGiftFromInbox's result.
- Database.Store.AddGiftToInbox and Database.Store.TransferCardsByTagToPending return nothing. The source returns the driver result of `insertOne` and `updateMany`; the model states only the new store.
- `activecards` is a map keyed by `card_id`, so the model cannot hold two documents with one `card_id`. The addCards finding shows the source can create such documents. Drops.IsSample's distinct ids and Drops.OfferFromSampling's distinctness rest on this.
- The inbox's natural order is taken to be insertion order: AddGiftToInbox appends. MongoDB does not promise this. The acceptGift finding's example depends on it.
- `null` arguments are not modelled. Only `undefined` is, as `None`.
- A stored gift whose quantities are themselves `undefined` is not modelled. Every stored quantity is an integer.
- Atomicity and concurrent interleavings of the single-document updates are left out: the model runs one call at a time.
- JavaScript numbers are unbounded integers here. Amounts are never fractional or NaN.
- Database.Store.RejectGift: updateDominantDust, updateSubmissiveDust, updateConceptDust and updateObjectDust are not defined in the file. A call to one of them is modelled as the throw it would raise, not as a dust credit.
- Database.Store.AcceptGift: does not write the card-transfer, last-received-card, grab, drop and dust branches. A match proves their arguments undefined, so they never run.
- PlayerStore.UpperChar: `toUpperCase` is modelled on ASCII letters only.
- getCardSuggestions, ownedCardSuggestions, getCardsByUserId and getCardsByUserIdAndTag are left out. They depend on regex and driver sort, skip and limit semantics that are not visible.
- Cooldowns, last-card functions, the card and tag gift inboxes, drop data, submissions and frames are left out. They are plain reads or single-field writes outside the state machine modelled here.
- transferCardsByTagToAnotherPlayer is left out: its filter uses a `tag` that is not bound.
- index.js is not part of this model. It is the bot's client setup and command routing.
