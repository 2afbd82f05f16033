/** The counting vocabulary the hand checks of cards.rb are built from:
    `reject`/`select`/`group_by` buckets of a hand, their sizes, picking the
    highest rank or suit that passes a test, and the sort key of `draw`. */
module Tally {
  import opened Wrappers
  import opened Cards

  /** Which cards a bucket keeps: the Jokers, the non-Jokers ("literal"
      cards), or the non-Jokers of one rank or of one suit. */
  datatype Selector = Jokers | Literals | OfRank(r: Rank) | OfSuit(s: Suit)

  predicate Selects(sel: Selector, c: Card) {
    match sel
    case Jokers => c.Joker?
    case Literals => c.Standard?
    case OfRank(r) => c.Standard? && c.rank == r
    case OfSuit(s) => c.Standard? && c.suit == s
  }

  /** The cards of `cards` that `sel` keeps, in their original order. */
  function Select(cards: seq<Card>, sel: Selector): (r: seq<Card>)
    ensures forall i :: 0 <= i < |r| ==> Selects(sel, r[i])
  {
    if cards == [] then []
    else (if Selects(sel, cards[0]) then [cards[0]] else []) + Select(cards[1..], sel)
  }

  /** A bucket holds every card `sel` keeps, as often as the hand does. */
  lemma {:induction false} SelectCounts(cards: seq<Card>, sel: Selector)
    ensures forall c :: multiset(Select(cards, sel))[c] == if Selects(sel, c) then multiset(cards)[c] else 0
  {
    if cards != [] {
      assert cards == [cards[0]] + cards[1..];
      SelectCounts(cards[1..], sel);
    }
  }

  /** J: the number of Jokers in the hand. */
  function JokerCount(cards: seq<Card>): nat {
    |Select(cards, Jokers)|
  }

  /** The literal count of a rank (size of its `group_by` bucket). */
  function RankCount(cards: seq<Card>, r: Rank): nat {
    |Select(cards, OfRank(r))|
  }

  /** The non-Joker cards of one suit, in hand order. */
  function SuitCards(cards: seq<Card>, s: Suit): seq<Card> {
    Select(cards, OfSuit(s))
  }

  function SuitCount(cards: seq<Card>, s: Suit): nat {
    |SuitCards(cards, s)|
  }

  /** Some card of rank `r` is literally in the hand. */
  predicate Present(cards: seq<Card>, r: Rank) {
    RankCount(cards, r) > 0
  }

  lemma PresentMeans(cards: seq<Card>, r: Rank)
    ensures Present(cards, r) <==> exists s :: Standard(r, s) in cards
  {
    var bucket := Select(cards, OfRank(r));
    SelectCounts(cards, OfRank(r));
    if Present(cards, r) {
      var c := bucket[0];
      assert multiset(bucket)[c] > 0;
      assert multiset(cards)[c] > 0;
      assert Standard(r, c.suit) in cards;
    }
    if exists s :: Standard(r, s) in cards {
      var s :| Standard(r, s) in cards;
      assert multiset(cards)[Standard(r, s)] > 0;
      assert multiset(bucket)[Standard(r, s)] > 0;
    }
  }

  /** A present rank is the rank of some literal card of the hand. */
  lemma PresentLiteralIndex(cards: seq<Card>, r: Rank) returns (i: nat)
    requires Present(cards, r)
    ensures i < |Select(cards, Literals)| && Select(cards, Literals)[i].rank == r
  {
    var lits := Select(cards, Literals);
    var c := Select(cards, OfRank(r))[0];
    SelectCounts(cards, OfRank(r));
    SelectCounts(cards, Literals);
    assert multiset(Select(cards, OfRank(r)))[c] > 0;
    assert multiset(lits)[c] > 0;
    assert c in lits;
    i :| 0 <= i < |lits| && lits[i] == c;
  }

  lemma LiteralIsPresent(cards: seq<Card>, i: nat)
    requires i < |Select(cards, Literals)|
    ensures Present(cards, Select(cards, Literals)[i].rank)
  {
    var lits := Select(cards, Literals);
    var c := lits[i];
    var bucket := Select(cards, OfRank(c.rank));
    SelectCounts(cards, OfRank(c.rank));
    SelectCounts(cards, Literals);
    assert multiset(lits)[c] > 0;
    assert multiset(bucket)[c] > 0;
    assert c in bucket;
  }

  /** Buckets depend only on which cards the hand holds, not on its order. */
  lemma {:induction false} SelectSameCards(a: seq<Card>, b: seq<Card>, sel: Selector)
    requires multiset(a) == multiset(b)
    ensures multiset(Select(a, sel)) == multiset(Select(b, sel))
    ensures |Select(a, sel)| == |Select(b, sel)|
  {
    var sa, sb := Select(a, sel), Select(b, sel);
    SelectCounts(a, sel);
    SelectCounts(b, sel);
    forall c ensures multiset(sa)[c] == multiset(sb)[c] {
      assert multiset(a)[c] == multiset(b)[c];
    }
    assert multiset(sa) == multiset(sb);
    assert |sa| == |multiset(sa)|;
  }

  /** Every count the hand checks use is the same for two hands holding the
      same cards. */
  lemma SameCardsSameCounts(a: seq<Card>, b: seq<Card>)
    requires multiset(a) == multiset(b)
    ensures JokerCount(a) == JokerCount(b)
    ensures forall r :: RankCount(a, r) == RankCount(b, r)
    ensures forall s :: multiset(SuitCards(a, s)) == multiset(SuitCards(b, s))
    ensures forall s :: SuitCount(a, s) == SuitCount(b, s)
  {
    SelectSameCards(a, b, Jokers);
    forall r ensures RankCount(a, r) == RankCount(b, r) {
      SelectSameCards(a, b, OfRank(r));
    }
    forall s ensures multiset(SuitCards(a, s)) == multiset(SuitCards(b, s)) {
      SelectSameCards(a, b, OfSuit(s));
    }
    forall s ensures SuitCount(a, s) == SuitCount(b, s) {
      SelectSameCards(a, b, OfSuit(s));
    }
  }

  // ---------------------------------------------------------------------
  // Highest rank / suit passing a test: the `sort_by { index }.reverse.first`
  // (or `.last`) idiom of the source.

  ghost predicate IsTopRank(P: Rank -> bool, r: Rank) {
    P(r) && forall q :: P(q) ==> q.Index() <= r.Index()
  }

  /** The highest rank below position `k` of RANK_ORDER passing `P`. */
  function TopRankBelow(P: Rank -> bool, k: nat): (r: Option<Rank>)
    requires k <= 13
    ensures r.Some? ==> P(r.value) && r.value.Index() < k
    ensures forall q :: P(q) && q.Index() < k ==> r.Some? && q.Index() <= r.value.Index()
  {
    if k == 0 then None
    else if P(RankAt(k - 1)) then Some(RankAt(k - 1))
    else TopRankBelow(P, k - 1)
  }

  function TopRank(P: Rank -> bool): (r: Option<Rank>)
    ensures r.None? ==> forall q :: !P(q)
    ensures r.Some? ==> IsTopRank(P, r.value)
  {
    TopRankBelow(P, |RANK_ORDER|)
  }

  /** The two highest ranks passing `P` (`sort_by.reverse[0..1]`), provided
      there are at least two. */
  function TopTwoRanks(P: Rank -> bool): (r: Option<(Rank, Rank)>)
    ensures r.None? ==> forall a, b :: P(a) && P(b) ==> a == b
    ensures r.Some? ==> IsTopRank(P, r.value.0)
    ensures r.Some? ==> P(r.value.1) && r.value.1 != r.value.0
    ensures r.Some? ==> forall q :: P(q) && q != r.value.0 ==> q.Index() <= r.value.1.Index()
  {
    match TopRank(P)
    case None => None
    case Some(first) =>
      match TopRank(q => P(q) && q != first)
      case None => None
      case Some(second) => Some((first, second))
  }

  ghost predicate IsTopSuit(P: Suit -> bool, s: Suit) {
    P(s) && forall t :: P(t) ==> t.Index() <= s.Index()
  }

  function TopSuitBelow(P: Suit -> bool, k: nat): (r: Option<Suit>)
    requires k <= 4
    ensures r.Some? ==> P(r.value) && r.value.Index() < k
    ensures forall t :: P(t) && t.Index() < k ==> r.Some? && t.Index() <= r.value.Index()
  {
    if k == 0 then None
    else if P(SuitAt(k - 1)) then Some(SuitAt(k - 1))
    else TopSuitBelow(P, k - 1)
  }

  /** The suit latest in SUITS passing `P`. */
  function TopSuit(P: Suit -> bool): (r: Option<Suit>)
    ensures r.None? ==> forall t :: !P(t)
    ensures r.Some? ==> IsTopSuit(P, r.value)
  {
    TopSuitBelow(P, |SUITS|)
  }

  // ---------------------------------------------------------------------
  // The order `draw` sorts a hand into.

  /** `RANK_ORDER.index(c.rank) || 14`: Jokers sort after every rank. */
  function SortKey(c: Card): (k: nat)
    ensures c.IsJoker() <==> k == 14
    ensures c.Standard? ==> k < 13 && RankAt(k) == c.rank
  {
    match c.Value()
    case Some(v) => v
    case None => 14
  }

  predicate SortedByKey(s: seq<Card>) {
    forall i, j :: 0 <= i < j < |s| ==> SortKey(s[i]) <= SortKey(s[j])
  }

  /** A bucket of a sorted hand is sorted. */
  lemma {:induction false} SelectKeepsOrder(cards: seq<Card>, sel: Selector)
    requires SortedByKey(cards)
    ensures SortedByKey(Select(cards, sel))
  {
    if cards != [] {
      var tail := cards[1..];
      SortedTail(cards);
      SelectKeepsOrder(tail, sel);
      var rest := Select(tail, sel);
      if Selects(sel, cards[0]) {
        HeadBelowBucket(cards, sel);
        SortedCons(cards[0], rest);
        assert Select(cards, sel) == [cards[0]] + rest;
      } else {
        assert Select(cards, sel) == rest;
      }
    }
  }

  lemma SortedTail(cards: seq<Card>)
    requires SortedByKey(cards) && cards != []
    ensures SortedByKey(cards[1..])
  {
    var tail := cards[1..];
    forall i, j | 0 <= i < j < |tail| ensures SortKey(tail[i]) <= SortKey(tail[j]) {
      assert tail[i] == cards[i + 1] && tail[j] == cards[j + 1];
    }
  }

  lemma HeadBelowBucket(cards: seq<Card>, sel: Selector)
    requires SortedByKey(cards) && cards != []
    ensures forall c :: c in Select(cards[1..], sel) ==> SortKey(cards[0]) <= SortKey(c)
  {
    var tail := cards[1..];
    var rest := Select(tail, sel);
    SelectCounts(tail, sel);
    forall c | c in rest ensures SortKey(cards[0]) <= SortKey(c) {
      assert multiset(rest)[c] > 0;
      assert c in tail;
      var k :| 0 <= k < |tail| && tail[k] == c;
      assert cards[k + 1] == c;
    }
  }

  lemma SortedCons(c: Card, rest: seq<Card>)
    requires SortedByKey(rest)
    requires forall d :: d in rest ==> SortKey(c) <= SortKey(d)
    ensures SortedByKey([c] + rest)
  {
    var r := [c] + rest;
    forall i, j | 0 <= i < j < |r| ensures SortKey(r[i]) <= SortKey(r[j]) {
      assert r[j] == rest[j - 1];
      if i > 0 {
        assert r[i] == rest[i - 1];
      } else {
        assert rest[j - 1] in rest;
      }
    }
  }
}
