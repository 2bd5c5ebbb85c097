/** The `players` collection as a map from user id to player document,
    and the meaning of the updates the database layer sends to it:
    registration, the `$inc` counter updates, the `$push`/`$pull` tag
    updates, and the case-insensitive tag-prefix lookup. */
module PlayerStore {
  import opened Records

  type PlayerMap = map<string, Player>

  /** Every document is stored under its own `user_id`. */
  predicate KeyedByUser(ps: PlayerMap) {
    forall u :: u in ps ==> ps[u].userId == u
  }

  // ---------------------------------------------------------------------
  // Registration

  /** addPlayer: insert the document iff no player has its `user_id`. */
  function Register(ps: PlayerMap, p: Player): (r: PlayerMap)
    ensures p.userId in ps ==> r == ps
    ensures p.userId !in ps ==> r.Keys == ps.Keys + {p.userId} && r[p.userId] == p
    ensures forall u :: u in ps ==> u in r && r[u] == ps[u]
  {
    if p.userId in ps then ps else ps[p.userId := p]
  }

  // ---------------------------------------------------------------------
  // Counters

  /** `$inc` of one counter field of one document. */
  function Inc(p: Player, c: Counter, amount: int): (r: Player)
    ensures forall d :: Counted(r, d) == Counted(p, d) + (if d == c then amount else 0)
    ensures r.userId == p.userId && r.tags == p.tags && r.lastCard == p.lastCard
  {
    match c
    case ExtraGrabsCounter => p.(extraGrabs := p.extraGrabs + amount)
    case ExtraDropsCounter => p.(extraDrops := p.extraDrops + amount)
    case CurrencyCounter => p.(currency := p.currency + amount)
    case DustCounter => p.(dust := p.dust + amount)
    case PartsCounter => p.(parts := p.parts + amount)
    case FragmentsCounter => p.(fragments := p.fragments + amount)
  }

  /** The counter update `updateOne({user_id}, {$inc: {field: amount}})`:
      the one field of the one player grows by `amount`; an absent player
      matches nothing. */
  function Credit(ps: PlayerMap, userId: string, c: Counter, amount: int): (r: PlayerMap)
    ensures r.Keys == ps.Keys
    ensures userId in ps ==> r[userId] == Inc(ps[userId], c, amount)
    ensures forall u :: u in ps && u != userId ==> r[u] == ps[u]
  {
    if userId in ps then ps[userId := Inc(ps[userId], c, amount)] else ps
  }

  /** An increment of 0 changes nothing, which is why the update functions
      may return before touching the store when the amount is 0. */
  lemma CreditZero(ps: PlayerMap, userId: string, c: Counter)
    ensures Credit(ps, userId, c, 0) == ps
  {
    if userId in ps {
      var p := ps[userId];
      assert Inc(p, c, 0) == p by {
        match c
        case ExtraGrabsCounter =>
        case ExtraDropsCounter =>
        case CurrencyCounter =>
        case DustCounter =>
        case PartsCounter =>
        case FragmentsCounter =>
      }
    }
  }

  /** Crediting `-amount` undoes crediting `amount`. */
  lemma CreditInverse(ps: PlayerMap, userId: string, c: Counter, amount: int)
    ensures Credit(Credit(ps, userId, c, amount), userId, c, -amount) == ps
  {
    if userId in ps {
      var p := ps[userId];
      assert Inc(Inc(p, c, amount), c, -amount) == p by {
        match c
        case ExtraGrabsCounter =>
        case ExtraDropsCounter =>
        case CurrencyCounter =>
        case DustCounter =>
        case PartsCounter =>
        case FragmentsCounter =>
      }
    }
  }

  /** Two credits of the same counter add up. */
  lemma CreditAdds(ps: PlayerMap, userId: string, c: Counter, a: int, b: int)
    ensures Credit(Credit(ps, userId, c, a), userId, c, b) == Credit(ps, userId, c, a + b)
  {
    if userId in ps {
      var p := ps[userId];
      assert Inc(Inc(p, c, a), c, b) == Inc(p, c, a + b) by {
        match c
        case ExtraGrabsCounter =>
        case ExtraDropsCounter =>
        case CurrencyCounter =>
        case DustCounter =>
        case PartsCounter =>
        case FragmentsCounter =>
      }
    }
  }

  /** The credits rejectGift sends before its dust arguments: extra grabs,
      extra drops and currency, each by its argument when that is defined.
      This is also all it has credited when a defined dust argument makes it
      throw. */
  function CreditBoosts(ps: PlayerMap, userId: string, d: Deltas): (r: PlayerMap)
    ensures r.Keys == ps.Keys
    ensures forall u :: u in ps && u != userId ==> r[u] == ps[u]
    ensures userId in ps ==>
      && Counted(r[userId], ExtraGrabsCounter) == Counted(ps[userId], ExtraGrabsCounter) + OrZero(d.extraGrabs)
      && Counted(r[userId], ExtraDropsCounter) == Counted(ps[userId], ExtraDropsCounter) + OrZero(d.extraDrops)
      && Counted(r[userId], CurrencyCounter) == Counted(ps[userId], CurrencyCounter) + OrZero(d.currency)
      && Counted(r[userId], PartsCounter) == Counted(ps[userId], PartsCounter)
      && Counted(r[userId], FragmentsCounter) == Counted(ps[userId], FragmentsCounter)
      && Counted(r[userId], DustCounter) == Counted(ps[userId], DustCounter)
      && r[userId].tags == ps[userId].tags && r[userId].lastCard == ps[userId].lastCard
  {
    var ps1 := Credit(ps, userId, ExtraGrabsCounter, OrZero(d.extraGrabs));
    var ps2 := Credit(ps1, userId, ExtraDropsCounter, OrZero(d.extraDrops));
    Credit(ps2, userId, CurrencyCounter, OrZero(d.currency))
  }

  /** The credits rejectGift sends when it runs to the end, all to one
      player: extra grabs, extra drops, currency, parts and fragments, each
      by its argument when that is defined. (It gets this far only with
      every dust argument undefined; see Database.Store.RejectGift.) */
  function CreditDeltas(ps: PlayerMap, userId: string, d: Deltas): (r: PlayerMap)
    ensures r.Keys == ps.Keys
    ensures forall u :: u in ps && u != userId ==> r[u] == ps[u]
    ensures userId in ps ==>
      && Counted(r[userId], ExtraGrabsCounter) == Counted(ps[userId], ExtraGrabsCounter) + OrZero(d.extraGrabs)
      && Counted(r[userId], ExtraDropsCounter) == Counted(ps[userId], ExtraDropsCounter) + OrZero(d.extraDrops)
      && Counted(r[userId], CurrencyCounter) == Counted(ps[userId], CurrencyCounter) + OrZero(d.currency)
      && Counted(r[userId], PartsCounter) == Counted(ps[userId], PartsCounter) + OrZero(d.parts)
      && Counted(r[userId], FragmentsCounter) == Counted(ps[userId], FragmentsCounter) + OrZero(d.fragments)
      && Counted(r[userId], DustCounter) == Counted(ps[userId], DustCounter)
      && r[userId].tags == ps[userId].tags && r[userId].lastCard == ps[userId].lastCard
  {
    var ps3 := CreditBoosts(ps, userId, d);
    var ps4 := Credit(ps3, userId, PartsCounter, OrZero(d.parts));
    Credit(ps4, userId, FragmentsCounter, OrZero(d.fragments))
  }

  // ---------------------------------------------------------------------
  // Tag lists

  /** `r` is `s` with some elements left out, the rest in their order. */
  predicate IsSubsequence(r: seq<string>, s: seq<string>)
    decreases |s|
  {
    if r == [] then true
    else if s == [] then false
    else if r[0] == s[0] then IsSubsequence(r[1..], s[1..])
    else IsSubsequence(r, s[1..])
  }

  /** `$pull: {tags: tag}`: every element equal to `tag` leaves the list,
      the others keep their order and their number of copies. */
  function RemoveAll(tags: seq<string>, tag: string): (r: seq<string>)
    ensures tag !in r
    ensures forall t :: t in r <==> t in tags && t != tag
    ensures forall t :: multiset(r)[t] == if t == tag then 0 else multiset(tags)[t]
    ensures IsSubsequence(r, tags)
    ensures |r| <= |tags|
    ensures tag !in tags ==> r == tags
    decreases |tags|
  {
    if tags == [] then []
    else
      assert tags == [tags[0]] + tags[1..];
      if tags[0] == tag then RemoveAll(tags[1..], tag)
      else [tags[0]] + RemoveAll(tags[1..], tag)
  }

  /** `$pull` works element by element: pulling from a concatenation is
      concatenating the pulls, so the kept tags stay in list order. */
  lemma {:induction false} RemoveAllAppend(a: seq<string>, b: seq<string>, tag: string)
    ensures RemoveAll(a + b, tag) == RemoveAll(a, tag) + RemoveAll(b, tag)
    decreases |a|
  {
    if a == [] {
      assert a + b == b;
    } else {
      assert (a + b)[0] == a[0];
      assert (a + b)[1..] == a[1..] + b;
      RemoveAllAppend(a[1..], b, tag);
    }
  }

  /** Pulling a tag twice is pulling it once. */
  lemma RemoveAllIdempotent(tags: seq<string>, tag: string)
    ensures RemoveAll(RemoveAll(tags, tag), tag) == RemoveAll(tags, tag)
  {
  }

  /** Pulling a tag that was just pushed gives what pulling it gives
      without the push: the push leaves no trace. */
  lemma {:induction false} RemoveAllAfterPush(tags: seq<string>, tag: string)
    ensures RemoveAll(tags + [tag], tag) == RemoveAll(tags, tag)
    decreases |tags|
  {
    if tags == [] {
      assert [] + [tag] == [tag];
      assert [tag][1..] == [];
    } else {
      assert (tags + [tag])[0] == tags[0];
      assert (tags + [tag])[1..] == tags[1..] + [tag];
      RemoveAllAfterPush(tags[1..], tag);
    }
  }

  /** addTagToArray: `$push: {tags: tag}` on the player's document. */
  function PushTag(ps: PlayerMap, userId: string, tag: string): (r: PlayerMap)
    ensures r.Keys == ps.Keys
    ensures userId in ps ==> r[userId] == ps[userId].(tags := ps[userId].tags + [tag])
    ensures forall u :: u in ps && u != userId ==> r[u] == ps[u]
  {
    if userId in ps then ps[userId := ps[userId].(tags := ps[userId].tags + [tag])] else ps
  }

  /** removeTagFromArray: `$pull: {tags: tag}` on the player's document. */
  function PullTag(ps: PlayerMap, userId: string, tag: string): (r: PlayerMap)
    ensures r.Keys == ps.Keys
    ensures userId in ps ==> r[userId] == ps[userId].(tags := RemoveAll(ps[userId].tags, tag))
    ensures forall u :: u in ps && u != userId ==> r[u] == ps[u]
  {
    if userId in ps then ps[userId := ps[userId].(tags := RemoveAll(ps[userId].tags, tag))] else ps
  }

  /** Pushing then pulling a tag the player did not have restores the
      player's tag list. */
  lemma PushThenPullRestores(ps: PlayerMap, userId: string, tag: string)
    requires userId in ps && tag !in ps[userId].tags
    ensures PullTag(PushTag(ps, userId, tag), userId, tag) == ps
  {
    RemoveAllAfterPush(ps[userId].tags, tag);
  }

  /** Pulling a tag right after pushing it is pulling it without the push,
      whether or not the player already had that tag. */
  lemma PushThenPullIsPull(ps: PlayerMap, userId: string, tag: string)
    ensures PullTag(PushTag(ps, userId, tag), userId, tag) == PullTag(ps, userId, tag)
  {
    if userId in ps {
      RemoveAllAfterPush(ps[userId].tags, tag);
    }
  }

  // ---------------------------------------------------------------------
  // Tag suggestions

  /** `toUpperCase` on the ASCII letters; every other character is kept. */
  function UpperChar(ch: char): (r: char)
    ensures 'a' <= ch <= 'z' ==> r as int == ch as int - 32
    ensures !('a' <= ch <= 'z') ==> r == ch
  {
    if 'a' <= ch <= 'z' then (ch as int - 32) as char else ch
  }

  function Upper(s: string): (r: string)
    ensures |r| == |s|
    ensures forall i :: 0 <= i < |s| ==> r[i] == UpperChar(s[i])
  {
    seq(|s|, i requires 0 <= i < |s| => UpperChar(s[i]))
  }

  /** `tag.toUpperCase().startsWith(input.toUpperCase())`. */
  predicate StartsWithIgnoringCase(tag: string, input: string) {
    Upper(input) <= Upper(tag)
  }

  /** The prefix test compares letter by letter, ignoring case. */
  lemma StartsWithIgnoringCaseMeans(tag: string, input: string)
    ensures StartsWithIgnoringCase(tag, input)
        <==> |input| <= |tag| && forall i :: 0 <= i < |input| ==> UpperChar(input[i]) == UpperChar(tag[i])
  {
    if |input| <= |tag| && forall i :: 0 <= i < |input| ==> UpperChar(input[i]) == UpperChar(tag[i]) {
      assert Upper(input) == Upper(tag)[..|input|];
    }
  }

  /** getTagSuggestions' filter: the tags that start with `input`, ignoring
      case, in list order and with every copy. */
  function MatchingTags(tags: seq<string>, input: string): (r: seq<string>)
    ensures forall t :: t in r <==> t in tags && StartsWithIgnoringCase(t, input)
    ensures forall t :: multiset(r)[t] == if StartsWithIgnoringCase(t, input) then multiset(tags)[t] else 0
    ensures IsSubsequence(r, tags)
    ensures |r| <= |tags|
    decreases |tags|
  {
    if tags == [] then []
    else
      assert tags == [tags[0]] + tags[1..];
      if StartsWithIgnoringCase(tags[0], input) then [tags[0]] + MatchingTags(tags[1..], input)
      else MatchingTags(tags[1..], input)
  }

  /** The filter works element by element: filtering a concatenation is
      concatenating the filtered parts, so suggestions keep list order. */
  lemma {:induction false} MatchingTagsAppend(a: seq<string>, b: seq<string>, input: string)
    ensures MatchingTags(a + b, input) == MatchingTags(a, input) + MatchingTags(b, input)
    decreases |a|
  {
    if a == [] {
      assert a + b == b;
    } else {
      assert (a + b)[0] == a[0];
      assert (a + b)[1..] == a[1..] + b;
      MatchingTagsAppend(a[1..], b, input);
    }
  }

  /** The empty input suggests every tag. */
  lemma {:induction false} EmptyInputMatchesAll(tags: seq<string>)
    ensures MatchingTags(tags, "") == tags
    decreases |tags|
  {
    if tags != [] {
      assert Upper("") <= Upper(tags[0]);
      EmptyInputMatchesAll(tags[1..]);
    }
  }

  lemma UpperIdempotent(s: string)
    ensures Upper(Upper(s)) == Upper(s)
  {
    assert forall i :: 0 <= i < |s| ==> UpperChar(UpperChar(s[i])) == UpperChar(s[i]);
  }

  /** Suggestions do not depend on the case of the input. */
  lemma {:induction false} SuggestionsIgnoreInputCase(tags: seq<string>, input: string)
    ensures MatchingTags(tags, Upper(input)) == MatchingTags(tags, input)
    decreases |tags|
  {
    UpperIdempotent(input);
    if tags != [] {
      SuggestionsIgnoreInputCase(tags[1..], input);
    }
  }
}
