/** The card-issuance side of the store: fresh ids for addCards and the
    weighted three-card offer of getCards.

    The random parts come in as data. generateId is a finite stream of
    candidate ids; the five `$sample` results are seqs the caller supplies
    together with the facts `$sample` guarantees; the three `Math.random()`
    values are rolls in [0, 1). */
module Drops {
  import opened Records
  import opened CardStore

  // ---------------------------------------------------------------------
  // addCards: ids that collide with neither store

  /** A candidate id is usable when neither `tempcards` nor `activecards`
      holds a document with that `card_id`. */
  predicate Fresh(id: string, tempCards: set<string>, cards: CardMap) {
    id !in tempCards && id !in cards
  }

  /** The usable candidates, in stream order. addCards takes the first
      `quantity` of them, one per copy. */
  function FreshIds(candidates: seq<string>, tempCards: set<string>, cards: CardMap): (r: seq<string>)
    ensures |r| <= |candidates|
    ensures forall i :: 0 <= i < |r| ==> Fresh(r[i], tempCards, cards)
    ensures forall i :: 0 <= i < |r| ==> r[i] in candidates
    ensures forall id :: id in candidates && Fresh(id, tempCards, cards) ==> id in r
    decreases |candidates|
  {
    if candidates == [] then []
    else
      var last := candidates[|candidates| - 1];
      var init := FreshIds(candidates[..|candidates| - 1], tempCards, cards);
      assert forall id :: id in candidates ==> id in candidates[..|candidates| - 1] || id == last;
      if Fresh(last, tempCards, cards) then init + [last] else init
  }

  /** The usable ids of a prefix of the stream are a prefix of the usable ids. */
  lemma {:induction false} FreshIdsPrefix(candidates: seq<string>, n: nat, tempCards: set<string>, cards: CardMap)
    requires n <= |candidates|
    ensures FreshIds(candidates[..n], tempCards, cards) <= FreshIds(candidates, tempCards, cards)
    decreases |candidates| - n
  {
    if n < |candidates| {
      var c := candidates[..|candidates| - 1];
      assert c[..n] == candidates[..n];
      FreshIdsPrefix(c, n, tempCards, cards);
    } else {
      assert candidates[..n] == candidates;
    }
  }

  /** The stream position by position: one more candidate adds itself to
      the usable ids exactly when it is fresh. */
  lemma FreshIdsStep(candidates: seq<string>, n: nat, tempCards: set<string>, cards: CardMap)
    requires n < |candidates|
    ensures FreshIds(candidates[..n + 1], tempCards, cards)
         == FreshIds(candidates[..n], tempCards, cards)
            + (if Fresh(candidates[n], tempCards, cards) then [candidates[n]] else [])
  {
    assert candidates[..n + 1][..n] == candidates[..n];
  }

  /** The same id offered twice by the stream comes out twice: addCards
      checks candidates against the stores only, never against the ids it
      has already handed to earlier copies of the same batch. */
  lemma RepeatedCandidateRepeats(id: string)
    ensures FreshIds([id, id], {}, map[]) == [id, id]
  {
    assert [id, id][..1] == [id];
    assert [id][..0] == [];
  }

  /** The usable candidates without repeats: what addCards evidently
      intends, one distinct new id per copy. A candidate is skipped also
      when an earlier copy of the batch already took it. */
  function DistinctFreshIds(candidates: seq<string>, tempCards: set<string>, cards: CardMap): (r: seq<string>)
    ensures forall i, j :: 0 <= i < j < |r| ==> r[i] != r[j]
    ensures forall i :: 0 <= i < |r| ==> Fresh(r[i], tempCards, cards) && r[i] in candidates
    ensures forall id :: id in candidates && Fresh(id, tempCards, cards) ==> id in r
    decreases |candidates|
  {
    if candidates == [] then []
    else
      var last := candidates[|candidates| - 1];
      var init := DistinctFreshIds(candidates[..|candidates| - 1], tempCards, cards);
      assert forall id :: id in candidates ==> id in candidates[..|candidates| - 1] || id == last;
      if Fresh(last, tempCards, cards) && last !in init then init + [last] else init
  }

  predicate NoRepeats(s: seq<string>) {
    forall i, j :: 0 <= i < j < |s| ==> s[i] != s[j]
  }

  /** On a stream that never repeats itself the correction changes nothing. */
  lemma {:induction false} DistinctFreshIdsAgree(candidates: seq<string>, tempCards: set<string>, cards: CardMap)
    requires NoRepeats(candidates)
    ensures DistinctFreshIds(candidates, tempCards, cards) == FreshIds(candidates, tempCards, cards)
    decreases |candidates|
  {
    if candidates != [] {
      var n := |candidates| - 1;
      var init := candidates[..n];
      assert NoRepeats(init);
      DistinctFreshIdsAgree(init, tempCards, cards);
      assert candidates[n] !in init;
      assert candidates[n] !in DistinctFreshIds(init, tempCards, cards);
    }
  }

  /** The repeat the as-written filter lets through is removed. */
  lemma RepeatedCandidateUsedOnce(id: string)
    ensures DistinctFreshIds([id, id], {}, map[]) == [id]
  {
    assert [id, id][..1] == [id];
    assert [id][..0] == [];
    assert DistinctFreshIds([], {}, map[]) == [];
    assert DistinctFreshIds([id], {}, map[]) == [id];
  }

  // ---------------------------------------------------------------------
  // getCards: the weighted pool

  /** `rarityWeights` in its insertion order, which is the order in which
      `Object.entries` visits it. */
  const Rarities: seq<string> := ["Common", "Uncommon", "Rare", "Exotic", "Ultra"]
  const Weights: seq<nat> := [100, 70, 20, 5, 1]

  /** `$match: {rarity, been_dealt: false}`. */
  predicate InDropPool(c: Card, rarity: string) {
    c.rarity == rarity && !c.beenDealt
  }

  predicate DistinctIds(s: seq<Card>) {
    forall i, j :: 0 <= i < j < |s| ==> s[i].cardId != s[j].cardId
  }

  /** What `$sample: {size: weight}` after the `$match` stage returns: the
      documents of distinct matching cards, as stored, min(weight, count)
      of them, so fewer than `weight` only when every match is there. */
  predicate IsSample(m: CardMap, rarity: string, weight: nat, s: seq<Card>) {
    && |s| <= weight
    && (forall i :: 0 <= i < |s| ==> s[i].cardId in m && m[s[i].cardId] == s[i] && InDropPool(s[i], rarity))
    && DistinctIds(s)
    && (|s| == weight || forall id :: id in m && InDropPool(m[id], rarity) ==> exists i :: 0 <= i < |s| && s[i].cardId == id)
  }

  /** One sample per rarity, in rarity order. */
  predicate IsSampling(m: CardMap, samples: seq<seq<Card>>) {
    |samples| == |Rarities| && forall k :: 0 <= k < |samples| ==> IsSample(m, Rarities[k], Weights[k], samples[k])
  }

  /** `weightedArray`: the samples concatenated in rarity order. */
  function Concat(ss: seq<seq<Card>>): (r: seq<Card>)
    ensures forall c :: c in r ==> exists k :: 0 <= k < |ss| && c in ss[k]
    decreases |ss|
  {
    if ss == [] then [] else Concat(ss[..|ss| - 1]) + ss[|ss| - 1]
  }

  /** A card of the weighted pool is a card of the sample for its rarity. */
  lemma PoolCardFromItsSample(m: CardMap, samples: seq<seq<Card>>, c: Card)
    requires IsSampling(m, samples)
    requires c in Concat(samples)
    ensures c.cardId in m && m[c.cardId] == c && !c.beenDealt
    ensures exists k :: 0 <= k < |Rarities| && c.rarity == Rarities[k] && c in samples[k]
  {
    var k :| 0 <= k < |samples| && c in samples[k];
    var i :| 0 <= i < |samples[k]| && samples[k][i] == c;
    assert IsSample(m, Rarities[k], Weights[k], samples[k]);
  }

  /** The weighted pool holds each card at most once. */
  lemma {:induction false} PoolDistinct(m: CardMap, samples: seq<seq<Card>>, n: nat)
    requires IsSampling(m, samples)
    requires n <= |samples|
    ensures DistinctIds(Concat(samples[..n]))
    decreases n
  {
    if n > 0 {
      var ss := samples[..n];
      assert ss[..n - 1] == samples[..n - 1];
      PoolDistinct(m, samples, n - 1);
      var front, back := Concat(samples[..n - 1]), samples[n - 1];
      assert IsSample(m, Rarities[n - 1], Weights[n - 1], back);
      forall i, j | 0 <= i < |front| && 0 <= j < |back|
        ensures front[i].cardId != back[j].cardId
      {
        assert front[i] in Concat(samples[..n - 1]);
        var k :| 0 <= k < n - 1 && front[i] in samples[..n - 1][k];
        var p :| 0 <= p < |samples[k]| && samples[k][p] == front[i];
        assert IsSample(m, Rarities[k], Weights[k], samples[k]);
        assert front[i].rarity == Rarities[k] != Rarities[n - 1] == back[j].rarity;
      }
    }
  }

  /** The number of cards of one rarity. */
  function CountRarity(s: seq<Card>, rarity: string): (n: nat)
    ensures n <= |s|
    decreases |s|
  {
    if s == [] then 0
    else CountRarity(s[..|s| - 1], rarity) + (if s[|s| - 1].rarity == rarity then 1 else 0)
  }

  lemma {:induction false} CountRarityAppend(a: seq<Card>, b: seq<Card>, rarity: string)
    ensures CountRarity(a + b, rarity) == CountRarity(a, rarity) + CountRarity(b, rarity)
    decreases |b|
  {
    if b == [] {
      assert a + b == a;
    } else {
      var n := |b| - 1;
      assert (a + b)[..|a + b| - 1] == a + b[..n];
      CountRarityAppend(a, b[..n], rarity);
    }
  }

  /** A seq of cards that all have rarity `r` counts `|s|` for `r` and 0 for any other rarity. */
  lemma {:induction false} CountRarityUniform(s: seq<Card>, r: string, rarity: string)
    requires forall i :: 0 <= i < |s| ==> s[i].rarity == r
    ensures CountRarity(s, rarity) == if r == rarity then |s| else 0
    decreases |s|
  {
    if s != [] {
      CountRarityUniform(s[..|s| - 1], r, rarity);
    }
  }

  lemma RaritiesDistinct(j: nat, k: nat)
    requires j < |Rarities| && k < |Rarities|
    ensures Rarities[j] == Rarities[k] <==> j == k
  {
    assert Rarities[0][0] == 'C' && Rarities[1][0] == 'U' && Rarities[2][0] == 'R';
    assert Rarities[3][0] == 'E' && Rarities[4][0] == 'U' && Rarities[1][1] == 'n' && Rarities[4][1] == 'l';
  }

  /** The sample for rarity k holds cards of that rarity only, at most its weight of them. */
  lemma SampleOfRarity(m: CardMap, samples: seq<seq<Card>>, k: nat)
    requires IsSampling(m, samples) && k < |Rarities|
    ensures |samples[k]| <= Weights[k]
    ensures forall i :: 0 <= i < |samples[k]| ==> samples[k][i].rarity == Rarities[k]
  {
    assert IsSample(m, Rarities[k], Weights[k], samples[k]);
  }

  /** Each rarity contributes to the weighted pool exactly its sample,
      so at most its weight: 100, 70, 20, 5 and 1 cards. */
  lemma {:induction false} PoolRarityBound(m: CardMap, samples: seq<seq<Card>>, k: nat, n: nat)
    requires IsSampling(m, samples)
    requires k < |Rarities| && n <= |samples|
    ensures CountRarity(Concat(samples[..n]), Rarities[k]) == (if k < n then |samples[k]| else 0)
    ensures CountRarity(Concat(samples[..n]), Rarities[k]) <= Weights[k]
    decreases n
  {
    SampleOfRarity(m, samples, k);
    if n > 0 {
      assert samples[..n][..n - 1] == samples[..n - 1];
      var last := samples[n - 1];
      assert Concat(samples[..n]) == Concat(samples[..n - 1]) + last;
      PoolRarityBound(m, samples, k, n - 1);
      SampleOfRarity(m, samples, n - 1);
      CountRarityAppend(Concat(samples[..n - 1]), last, Rarities[k]);
      CountRarityUniform(last, Rarities[n - 1], Rarities[k]);
      RaritiesDistinct(n - 1, k);
    }
  }

  // ---------------------------------------------------------------------
  // getCards: three draws without replacement

  /** `Math.floor(Math.random() * weightedArray.length)`. */
  function Index(roll: real, n: nat): int {
    (roll * n as real).Floor
  }

  lemma IndexInRange(roll: real, n: nat)
    requires 0.0 <= roll < 1.0
    ensures n == 0 ==> Index(roll, n) == 0
    ensures n > 0 ==> 0 <= Index(roll, n) < n
  {
    if n > 0 {
      assert roll * n as real < n as real by {
        assert (1.0 - roll) * n as real > 0.0;
      }
      assert 0.0 <= roll * n as real;
    }
  }

  predicate AreRolls(rolls: seq<real>) {
    forall i :: 0 <= i < |rolls| ==> 0.0 <= rolls[i] < 1.0
  }

  function Min(a: int, b: int): int {
    if a <= b then a else b
  }

  /** `splice(i, 1)`: the pool without position i. */
  function RemoveAt(pool: seq<Card>, i: nat): (r: seq<Card>)
    requires i < |pool|
    ensures |r| == |pool| - 1
    ensures multiset(r) + multiset{pool[i]} == multiset(pool)
  {
    assert pool == pool[..i] + [pool[i]] + pool[i + 1..];
    pool[..i] + pool[i + 1..]
  }

  /** One draw per roll, each removing the drawn card from the pool: the
      offer is a sub-multiset of the pool, and it is as long as the pool
      allows. */
  function Draw(pool: seq<Card>, rolls: seq<real>): (picked: seq<Card>)
    requires AreRolls(rolls)
    ensures |picked| == Min(|rolls|, |pool|)
    ensures multiset(picked) <= multiset(pool)
    decreases |rolls|
  {
    if rolls == [] then []
    else
      IndexInRange(rolls[0], |pool|);
      var i := Index(rolls[0], |pool|);
      if i < |pool| then [pool[i]] + Draw(RemoveAt(pool, i), rolls[1..])
      else Draw(pool, rolls[1..])
  }

  /** One roll of Draw, as getCards' loop takes it. */
  lemma DrawStep(pool: seq<Card>, rolls: seq<real>)
    requires AreRolls(rolls) && rolls != []
    ensures 0.0 <= rolls[0] < 1.0
    ensures var i := Index(rolls[0], |pool|);
            Draw(pool, rolls) == if 0 <= i < |pool| then [pool[i]] + Draw(RemoveAt(pool, i), rolls[1..])
                                 else Draw(pool, rolls[1..])
  {
    IndexInRange(rolls[0], |pool|);
  }

  /** Draws without replacement from a pool of distinct cards give
      distinct cards. */
  lemma {:induction false} DrawDistinct(pool: seq<Card>, rolls: seq<real>)
    requires AreRolls(rolls)
    requires DistinctIds(pool)
    ensures DistinctIds(Draw(pool, rolls))
    decreases |rolls|
  {
    if rolls != [] {
      IndexInRange(rolls[0], |pool|);
      var i := Index(rolls[0], |pool|);
      if i < |pool| {
        var rest := RemoveAt(pool, i);
        assert rest == pool[..i] + pool[i + 1..];
        assert forall j :: 0 <= j < |rest| ==> rest[j] == (if j < i then pool[j] else pool[j + 1]);
        DrawDistinct(rest, rolls[1..]);
        var tail := Draw(rest, rolls[1..]);
        forall j | 0 <= j < |tail| ensures tail[j].cardId != pool[i].cardId {
          assert tail[j] in multiset(rest);
          var q :| 0 <= q < |rest| && rest[q] == tail[j];
        }
      } else {
        DrawDistinct(pool, rolls[1..]);
      }
    }
  }

  /** The only Ultra card the weighted pool can hold is the one in the
      Ultra sample, whose weight is 1. */
  lemma UltraCardIsTheUltraSample(m: CardMap, samples: seq<seq<Card>>, c: Card)
    requires IsSampling(m, samples)
    requires c in Concat(samples) && c.rarity == "Ultra"
    ensures |samples[4]| == 1 && c == samples[4][0]
  {
    PoolCardFromItsSample(m, samples, c);
    var k :| 0 <= k < |Rarities| && c.rarity == Rarities[k] && c in samples[k];
    assert |Rarities[k]| == |"Ultra"|;
    assert k == 4;
    assert IsSample(m, Rarities[4], Weights[4], samples[4]);
  }

  /** The offer contains at most one Ultra card. */
  lemma AtMostOneUltra(m: CardMap, samples: seq<seq<Card>>, offer: seq<Card>)
    requires IsSampling(m, samples)
    requires multiset(offer) <= multiset(Concat(samples))
    requires DistinctIds(offer)
    ensures forall i, j :: 0 <= i < j < |offer| ==> offer[i].rarity != "Ultra" || offer[j].rarity != "Ultra"
  {
    forall i, j | 0 <= i < j < |offer| && offer[i].rarity == "Ultra"
      ensures offer[j].rarity != "Ultra"
    {
      if offer[j].rarity == "Ultra" {
        assert offer[i] in multiset(Concat(samples));
        assert offer[j] in multiset(Concat(samples));
        UltraCardIsTheUltraSample(m, samples, offer[i]);
        UltraCardIsTheUltraSample(m, samples, offer[j]);
        assert false;
      }
    }
  }

  /** getCards' first loop: `weightedArray = weightedArray.concat(sample)`
      for each rarity in turn. */
  method WeightedArray(samples: seq<seq<Card>>) returns (weightedArray: seq<Card>)
    ensures weightedArray == Concat(samples)
  {
    weightedArray := [];
    for k := 0 to |samples|
      invariant weightedArray == Concat(samples[..k])
    {
      assert samples[..k + 1][..k] == samples[..k];
      weightedArray := weightedArray + samples[k];
    }
    assert samples[..|samples|] == samples;
  }

  /** getCards' second loop: one splice per roll, keeping what it removed. */
  method SelectCards(pool: seq<Card>, rolls: seq<real>) returns (selectedCards: seq<Card>)
    requires AreRolls(rolls)
    ensures selectedCards == Draw(pool, rolls)
  {
    var weightedArray := pool;
    selectedCards := [];
    for t := 0 to |rolls|
      invariant AreRolls(rolls[t..])
      invariant selectedCards + Draw(weightedArray, rolls[t..]) == Draw(pool, rolls)
    {
      assert rolls[t..][0] == rolls[t] && rolls[t..][1..] == rolls[t + 1..];
      DrawStep(weightedArray, rolls[t..]);
      IndexInRange(rolls[t], |weightedArray|);
      var randomIndex := Index(rolls[t], |weightedArray|);
      if randomIndex < |weightedArray| {
        var selectedCard := weightedArray[randomIndex];
        weightedArray := RemoveAt(weightedArray, randomIndex);
        assert selectedCards + [selectedCard] + Draw(weightedArray, rolls[t + 1..])
            == selectedCards + ([selectedCard] + Draw(weightedArray, rolls[t + 1..]));
        selectedCards := selectedCards + [selectedCard];
      }
    }
    assert rolls[|rolls|..] == [];
  }

  /** What getCards promises of its offer: distinct cards, each stored
      as offered, not dealt, of one of the five rarities, and at most one
      of them Ultra. */
  lemma OfferFromSampling(m: CardMap, samples: seq<seq<Card>>, rolls: seq<real>)
    requires IsSampling(m, samples)
    requires AreRolls(rolls)
    ensures var offer := Draw(Concat(samples), rolls);
            && DistinctIds(offer)
            && (forall i :: 0 <= i < |offer| ==>
                  offer[i].cardId in m && m[offer[i].cardId] == offer[i] && !offer[i].beenDealt && offer[i].rarity in Rarities)
            && (forall i, j :: 0 <= i < j < |offer| ==> offer[i].rarity != "Ultra" || offer[j].rarity != "Ultra")
  {
    var pool := Concat(samples);
    var offer := Draw(pool, rolls);
    PoolDistinct(m, samples, |samples|);
    assert samples[..|samples|] == samples;
    DrawDistinct(pool, rolls);
    AtMostOneUltra(m, samples, offer);
    forall i | 0 <= i < |offer|
      ensures offer[i].cardId in m && m[offer[i].cardId] == offer[i] && !offer[i].beenDealt && offer[i].rarity in Rarities
    {
      assert offer[i] in multiset(pool);
      PoolCardFromItsSample(m, samples, offer[i]);
    }
  }

  /** The drop cycle: once the cards of an offer are marked dealt, no later
      sampling of the store can offer any of them again until a reset. */
  lemma OfferedCardsNotReoffered(m: CardMap, offer: seq<Card>, samples: seq<seq<Card>>, rolls: seq<real>)
    requires AreRolls(rolls)
    requires IsSampling(MarkDealt(m, set c | c in offer :: c.cardId), samples)
    ensures forall c, d :: c in offer && d in Draw(Concat(samples), rolls) ==> c.cardId != d.cardId
  {
    var m' := MarkDealt(m, set c | c in offer :: c.cardId);
    forall c, d | c in offer && d in Draw(Concat(samples), rolls)
      ensures c.cardId != d.cardId
    {
      assert d in multiset(Concat(samples));
      PoolCardFromItsSample(m', samples, d);
    }
  }
}
