/** `Hand` of cards.rb (lines 120-316): the checks that classify a hand, each
    giving a structured label or None (the source's nil), and `best`, which
    takes the first check in priority order that fires. */
module Hand {
  import opened Wrappers
  import opened Cards
  import opened Tally
  import opened Straights

  /** What a check reports, in place of the source's label strings. */
  datatype Label =
    | StraightFlush(royal: bool, suit: Suit)
    | FourOfAKind(rank: Rank)
    | FullHouse(over: Rank, under: Rank)
    | Flush(suit: Suit)
    | Straight(high: Rank)
    | ThreeOfAKind(rank: Rank)
    | TwoPair(high: Rank, low: Rank)
    | Pair(rank: Rank)
    | Nothing
  {
    /** Position in the priority order of `best`, 8 for the first check. */
    function Category(): nat {
      match this
      case StraightFlush(_, _) => 8
      case FourOfAKind(_) => 7
      case FullHouse(_, _) => 6
      case Flush(_) => 5
      case Straight(_) => 4
      case ThreeOfAKind(_) => 3
      case TwoPair(_, _) => 2
      case Pair(_) => 1
      case Nothing => 0
    }
  }

  // ---------------------------------------------------------------------
  // four?, three?, pair? (lines 261-295)

  /** A rank qualifies for `n` of a kind: it has a `group_by` bucket among the
      literal cards, and that bucket together with every Joker reaches `n`. */
  predicate Qualifies(cards: seq<Card>, n: nat, r: Rank) {
    RankCount(cards, r) >= 1 && RankCount(cards, r) + JokerCount(cards) >= n
  }

  /** The highest rank qualifying for `n` of a kind. */
  function KindOf(cards: seq<Card>, n: nat): (r: Option<Rank>)
    ensures r.None? ==> forall q :: !Qualifies(cards, n, q)
    ensures r.Some? ==> Qualifies(cards, n, r.value)
    ensures r.Some? ==> forall q :: Qualifies(cards, n, q) ==> q.Index() <= r.value.Index()
  {
    var P := q => Qualifies(cards, n, q);
    assert forall q :: P(q) == Qualifies(cards, n, q);
    TopRank(P)
  }

  function FourOf(cards: seq<Card>): (l: Option<Label>)
    ensures l.Some? ==> l.value.FourOfAKind?
  {
    match KindOf(cards, 4)
    case Some(r) => Some(FourOfAKind(r))
    case None => None
  }

  function ThreeOf(cards: seq<Card>): (l: Option<Label>)
    ensures l.Some? ==> l.value.ThreeOfAKind?
  {
    match KindOf(cards, 3)
    case Some(r) => Some(ThreeOfAKind(r))
    case None => None
  }

  function PairOf(cards: seq<Card>): (l: Option<Label>)
    ensures l.Some? ==> l.value.Pair?
  {
    match KindOf(cards, 2)
    case Some(r) => Some(Pair(r))
    case None => None
  }

  /** four?, three? and pair? give the highest rank whose literal cards
      and Jokers together reach four, three or two, and nil when none does. */
  lemma OfAKindMeans(cards: seq<Card>)
    ensures FourOf(cards).None? ==> forall q :: !Qualifies(cards, 4, q)
    ensures FourOf(cards).Some? ==> FourOf(cards) == Some(FourOfAKind(KindOf(cards, 4).value))
    ensures ThreeOf(cards).None? ==> forall q :: !Qualifies(cards, 3, q)
    ensures ThreeOf(cards).Some? ==> ThreeOf(cards) == Some(ThreeOfAKind(KindOf(cards, 3).value))
    ensures PairOf(cards).None? ==> forall q :: !Qualifies(cards, 2, q)
    ensures PairOf(cards).Some? ==> PairOf(cards) == Some(Pair(KindOf(cards, 2).value))
  {
  }

  // ---------------------------------------------------------------------
  // flush? (lines 250-259)

  /** A suit qualifies for a flush: it has literal cards, and they together
      with every Joker number at least five. */
  predicate FlushSuit(cards: seq<Card>, s: Suit) {
    SuitCount(cards, s) >= 1 && SuitCount(cards, s) + JokerCount(cards) >= 5
  }

  /** The qualifying suit latest in SUITS (not the one with the best cards). */
  function FlushSuitOf(cards: seq<Card>): (r: Option<Suit>)
    ensures r.None? ==> forall s :: !FlushSuit(cards, s)
    ensures r.Some? ==> FlushSuit(cards, r.value)
    ensures r.Some? ==> forall t :: FlushSuit(cards, t) ==> t.Index() <= r.value.Index()
  {
    var P := s => FlushSuit(cards, s);
    assert forall s :: P(s) == FlushSuit(cards, s);
    TopSuit(P)
  }

  function FlushOf(cards: seq<Card>): (l: Option<Label>)
    ensures l.Some? ==> l.value.Flush?
  {
    match FlushSuitOf(cards)
    case Some(s) => Some(Flush(s))
    case None => None
  }

  lemma FlushOfMeans(cards: seq<Card>)
    ensures FlushOf(cards).None? ==> forall s :: !FlushSuit(cards, s)
    ensures FlushOf(cards).Some? ==> FlushOf(cards).value.Flush? && FlushSuit(cards, FlushOf(cards).value.suit)
    ensures FlushOf(cards).Some? ==> forall t :: FlushSuit(cards, t) ==> t.Index() <= FlushOf(cards).value.suit.Index()
  {
  }

  // ---------------------------------------------------------------------
  // straight? as a check (lines 170-220; the search itself is in Straights)

  function StraightCheck(cards: seq<Card>): (l: Option<Label>)
    ensures l.Some? ==> l.value.Straight?
  {
    match StraightOf(cards)
    case Some(h) => Some(Straight(h))
    case None => None
  }

  // ---------------------------------------------------------------------
  // full_house? (lines 222-248)

  /** A rank with at least three literal cards (`true_three_ranks`). */
  predicate TrueTriple(cards: seq<Card>, r: Rank) {
    RankCount(cards, r) >= 3
  }

  /** A rank with at least two literal cards (`true_pair_ranks`). */
  predicate TruePair(cards: seq<Card>, r: Rank) {
    RankCount(cards, r) >= 2
  }

  function TopTriple(cards: seq<Card>): (r: Option<Rank>)
    ensures r.None? ==> forall q :: !TrueTriple(cards, q)
    ensures r.Some? ==> TrueTriple(cards, r.value)
    ensures r.Some? ==> forall q :: TrueTriple(cards, q) ==> q.Index() <= r.value.Index()
  {
    var P := q => TrueTriple(cards, q);
    assert forall q :: P(q) == TrueTriple(cards, q);
    TopRank(P)
  }

  /** `a_pair`: the highest true pair rank other than `t`. */
  function PartnerOf(cards: seq<Card>, t: Rank): (r: Option<Rank>)
    ensures r.None? ==> forall q :: TruePair(cards, q) ==> q == t
    ensures r.Some? ==> TruePair(cards, r.value) && r.value != t
    ensures r.Some? ==> forall q :: TruePair(cards, q) && q != t ==> q.Index() <= r.value.Index()
  {
    var P := q => TruePair(cards, q) && q != t;
    assert forall q :: P(q) == (TruePair(cards, q) && q != t);
    TopRank(P)
  }

  /** Without Jokers: the highest triple over the highest other pair, if
      any triple has a pair beside it.  With one Joker: the two highest true
      pairs, the Joker lifting the higher one.  With more: nil. */
  function FullHouseOf(cards: seq<Card>): (l: Option<Label>)
    ensures l.Some? ==> l.value.FullHouse?
  {
    match JokerCount(cards)
    case 0 =>
      (match TopTriple(cards)
       case None => None
       case Some(t) =>
         match PartnerOf(cards, t)
         case None => None
         case Some(p) => Some(FullHouse(t, p)))
    case 1 =>
      (match TopPairs(cards)
       case None => None
       case Some((a, b)) => Some(FullHouse(a, b)))
    case _ => None
  }

  /** Without Jokers, a full house exists exactly when some triple has a
      pair of another rank beside it, and the top triple is then used.
      With one Joker, exactly when two ranks are truly paired. */
  lemma FullHouseOfMeans(cards: seq<Card>)
    ensures var l := FullHouseOf(cards); JokerCount(cards) == 0 ==>
              (l.None? ==> forall t, p :: TrueTriple(cards, t) && TruePair(cards, p) ==> t == p)
    ensures var l := FullHouseOf(cards); JokerCount(cards) == 0 && l.Some? ==>
              l.value.FullHouse? && TopTriple(cards) == Some(l.value.over)
              && TruePair(cards, l.value.under) && l.value.under != l.value.over
              && forall q :: TruePair(cards, q) && q != l.value.over ==> q.Index() <= l.value.under.Index()
    ensures var l := FullHouseOf(cards); JokerCount(cards) == 1 ==>
              (l.None? ==> forall a, b :: TruePair(cards, a) && TruePair(cards, b) ==> a == b)
    ensures var l := FullHouseOf(cards); JokerCount(cards) == 1 && l.Some? ==>
              l.value.FullHouse? && TruePair(cards, l.value.over) && TruePair(cards, l.value.under)
              && l.value.over != l.value.under
              && (forall q :: TruePair(cards, q) ==> q.Index() <= l.value.over.Index())
              && (forall q :: TruePair(cards, q) && q != l.value.over ==> q.Index() <= l.value.under.Index())
    ensures JokerCount(cards) >= 2 ==> FullHouseOf(cards).None?
  {
    if JokerCount(cards) == 0 {
      var t := TopTriple(cards);
      if t.Some? && PartnerOf(cards, t.value).None? {
        TopTripleHasPartner(cards, t.value);
      }
    }
  }

  /** The two highest true pair ranks (`true_pair_ranks.sort_by.reverse[0..1]`). */
  function TopPairs(cards: seq<Card>): (r: Option<(Rank, Rank)>)
    ensures r.None? ==> forall a, b :: TruePair(cards, a) && TruePair(cards, b) ==> a == b
    ensures r.Some? ==> TruePair(cards, r.value.0) && TruePair(cards, r.value.1) && r.value.0 != r.value.1
    ensures r.Some? ==> forall q :: TruePair(cards, q) ==> q.Index() <= r.value.0.Index()
    ensures r.Some? ==> forall q :: TruePair(cards, q) && q != r.value.0 ==> q.Index() <= r.value.1.Index()
  {
    var P := q => TruePair(cards, q);
    assert forall q :: P(q) == TruePair(cards, q);
    TopTwoRanks(P)
  }

  /** If the top triple has no pair beside it, no triple has: another
      triple would itself be a pair beside the top one. */
  lemma TopTripleHasPartner(cards: seq<Card>, t: Rank)
    requires TopTriple(cards) == Some(t)
    requires PartnerOf(cards, t).None?
    ensures forall u, p :: TrueTriple(cards, u) && TruePair(cards, p) ==> u == p
  {
    forall u, p | TrueTriple(cards, u) && TruePair(cards, p) ensures u == p {
      assert p == t;
      assert TruePair(cards, u);
    }
  }

  /** The source's loop for the Joker-free case: triple ranks from the
      highest down, returning at the first one with a pair beside it. */
  method FullHouseCheck(cards: seq<Card>) returns (l: Option<Label>)
    ensures l == FullHouseOf(cards)
  {
    var jokers := JokerCount(cards);
    if jokers == 0 {
      var i := 13;
      while i > 0
        invariant 0 <= i <= 13
        invariant forall t :: TrueTriple(cards, t) && t.Index() >= i ==> PartnerOf(cards, t).None?
      {
        var tr := RankAt(i - 1);
        if TrueTriple(cards, tr) {
          var aPair := PartnerOf(cards, tr);
          if aPair.Some? {
            HigherTriplesAreLonely(cards, tr);
            return Some(FullHouse(tr, aPair.value));
          }
        }
        forall t | TrueTriple(cards, t) && t.Index() >= i - 1 ensures PartnerOf(cards, t).None? {
          if t.Index() == i - 1 {
            assert t == tr;
          }
        }
        i := i - 1;
      }
      if TopTriple(cards).Some? {
        assert PartnerOf(cards, TopTriple(cards).value).None?;
      }
      return None;
    } else if jokers == 1 {
      var pairs := TopPairs(cards);
      if pairs.Some? {
        return Some(FullHouse(pairs.value.0, pairs.value.1));
      }
      return None;
    }
    return None;
  }

  /** A triple with a partner, above which no triple has one, is the top
      triple: a higher triple would have it as its partner. */
  lemma HigherTriplesAreLonely(cards: seq<Card>, tr: Rank)
    requires TrueTriple(cards, tr) && PartnerOf(cards, tr).Some?
    requires forall t :: TrueTriple(cards, t) && t.Index() > tr.Index() ==> PartnerOf(cards, t).None?
    ensures TopTriple(cards) == Some(tr)
  {
    var top := TopTriple(cards);
    assert top.Some?;
    if top.value != tr {
      assert tr.Index() != top.value.Index();
      assert PartnerOf(cards, top.value).None?;
      assert TruePair(cards, tr);
    }
  }

  // ---------------------------------------------------------------------
  // two_pair? (lines 297-313)

  /** `high_card`: the rank of the highest literal card that is not part of
      a true pair (so its rank occurs exactly once). */
  function HighUnpaired(cards: seq<Card>): (r: Option<Rank>)
    ensures r.None? ==> forall q :: RankCount(cards, q) != 1
    ensures r.Some? ==> RankCount(cards, r.value) == 1
    ensures r.Some? ==> forall q :: RankCount(cards, q) == 1 ==> q.Index() <= r.value.Index()
  {
    var P := q => RankCount(cards, q) == 1;
    assert forall q :: P(q) == (RankCount(cards, q) == 1);
    TopRank(P)
  }

  /** The ranks `pair_ranks` holds: the true pairs, and, when there is a
      Joker and a `high_card`, the rank of the high card paired with it. */
  predicate PairCandidate(cards: seq<Card>, r: Rank) {
    TruePair(cards, r) || (JokerCount(cards) > 0 && HighUnpaired(cards) == Some(r))
  }

  /** The two highest pair candidates (`pair_ranks.sort_by.reverse[0..1]`). */
  function TopCandidates(cards: seq<Card>): (r: Option<(Rank, Rank)>)
    ensures r.None? ==> forall a, b :: PairCandidate(cards, a) && PairCandidate(cards, b) ==> a == b
    ensures r.Some? ==> PairCandidate(cards, r.value.0) && PairCandidate(cards, r.value.1) && r.value.0 != r.value.1
    ensures r.Some? ==> forall q :: PairCandidate(cards, q) ==> q.Index() <= r.value.0.Index()
    ensures r.Some? ==> forall q :: PairCandidate(cards, q) && q != r.value.0 ==> q.Index() <= r.value.1.Index()
  {
    var P := q => PairCandidate(cards, q);
    assert forall q :: P(q) == PairCandidate(cards, q);
    TopTwoRanks(P)
  }

  /** `two_pair?` with the nil `high_card` skipped: the two highest pair
      candidates, if there are two. */
  function TwoPairOf(cards: seq<Card>): (l: Option<Label>)
    ensures l.Some? ==> l.value.TwoPair?
  {
    match TopCandidates(cards)
    case Some((a, b)) => Some(TwoPair(a, b))
    case None => None
  }

  lemma TwoPairOfMeans(cards: seq<Card>)
    ensures var l := TwoPairOf(cards); l.None? ==> forall a, b :: PairCandidate(cards, a) && PairCandidate(cards, b) ==> a == b
    ensures var l := TwoPairOf(cards); l.Some? ==> l.value.TwoPair? && PairCandidate(cards, l.value.high) && PairCandidate(cards, l.value.low)
    ensures var l := TwoPairOf(cards); l.Some? ==> l.value.high != l.value.low
    ensures var l := TwoPairOf(cards); l.Some? ==> forall q :: PairCandidate(cards, q) ==> q.Index() <= l.value.high.Index()
    ensures var l := TwoPairOf(cards); l.Some? ==> forall q :: PairCandidate(cards, q) && q != l.value.high ==> q.Index() <= l.value.low.Index()
  {
  }

  /** What the source does instead: `high_card.rank` on a nil `high_card`. */
  datatype Fault = NilHighCard

  /** `two_pair?` as written: it fails outright when there is a Joker but no
      rank is held exactly once, and otherwise agrees with `TwoPairOf`. */
  function TwoPairAsWritten(cards: seq<Card>): (r: Result<Option<Label>, Fault>)
    ensures r.Err? <==> JokerCount(cards) > 0 && forall rk: Rank :: RankCount(cards, rk) != 1
    ensures r.Ok? ==> r.value == TwoPairOf(cards)
  {
    if JokerCount(cards) > 0 && HighUnpaired(cards).None? then Err(NilHighCard)
    else Ok(TwoPairOf(cards))
  }

  // ---------------------------------------------------------------------
  // straight_flush? (lines 138-168)

  /** A suit qualifies for a straight flush: it qualifies for a flush, and
      its literal cards on their own, without the Jokers, form a straight. */
  predicate SfSuit(cards: seq<Card>, s: Suit) {
    FlushSuit(cards, s) && StraightOf(SuitCards(cards, s)).Some?
  }

  /** The high rank of a qualifying suit's straight. */
  function SfHigh(cards: seq<Card>, s: Suit): Rank
    requires SfSuit(cards, s)
  {
    StraightOf(SuitCards(cards, s)).value
  }

  /** The source's `sort_by` key `index(high) + 0.1 * index(suit)`, scaled
      by ten; -1 for a suit that does not qualify. */
  function SfKey(cards: seq<Card>, s: Suit): (k: int)
    ensures k >= 0 <==> SfSuit(cards, s)
    ensures SfSuit(cards, s) ==> k % 10 == s.Index() && k / 10 == SfHigh(cards, s).Index()
  {
    if SfSuit(cards, s) then
      var h, t := SfHigh(cards, s).Index(), s.Index();
      assert (h * 10 + t) % 10 == t && (h * 10 + t) / 10 == h;
      h * 10 + t
    else -1
  }

  /** The qualifying suit below position `k` of SUITS with the largest key
      (`sort_by { key }.last`). */
  function BestSfSuitBelow(cards: seq<Card>, k: nat): (r: Option<Suit>)
    requires k <= 4
    ensures r.None? ==> forall t: Suit :: t.Index() < k ==> !SfSuit(cards, t)
    ensures r.Some? ==> SfSuit(cards, r.value) && r.value.Index() < k
    ensures r.Some? ==> forall t :: SfSuit(cards, t) && t.Index() < k ==> SfKey(cards, t) <= SfKey(cards, r.value)
  {
    if k == 0 then None
    else
      var s := SuitAt(k - 1);
      var rest := BestSfSuitBelow(cards, k - 1);
      if !SfSuit(cards, s) then rest
      else match rest
        case None => Some(s)
        case Some(b) => if SfKey(cards, b) < SfKey(cards, s) then Some(s) else Some(b)
  }

  /** The ranks a Royal Flush needs, in the order the source tests them. */
  const ROYAL: seq<Rank> := [Ten, Jack, Queen, King, Ace]

  /** Each of 10, Jack, Queen, King, Ace is among the suit's literal cards
      or covered by one of the Jokers. */
  predicate IsRoyal(cards: seq<Card>, s: Suit) {
    Absent(SuitCards(cards, s), ROYAL) <= JokerCount(cards)
  }

  function StraightFlushOf(cards: seq<Card>): (l: Option<Label>)
    ensures l.Some? ==> l.value.StraightFlush?
  {
    match BestSfSuitBelow(cards, |SUITS|)
    case None => None
    case Some(s) => Some(StraightFlush(IsRoyal(cards, s), s))
  }

  /** A straight flush exists exactly when some suit qualifies; the one
      reported has the highest straight, ties going to the suit later in
      SUITS, and is Royal exactly when the Jokers can fill 10 to Ace. */
  lemma StraightFlushOfMeans(cards: seq<Card>)
    ensures var l := StraightFlushOf(cards); l.None? ==> forall s :: !SfSuit(cards, s)
    ensures var l := StraightFlushOf(cards); l.Some? ==> l.value.StraightFlush? && SfSuit(cards, l.value.suit)
    ensures var l := StraightFlushOf(cards); l.Some? ==> (l.value.royal <==> IsRoyal(cards, l.value.suit))
    ensures var l := StraightFlushOf(cards); l.Some? ==> forall t :: SfSuit(cards, t) ==>
              SfHigh(cards, t).Index() < SfHigh(cards, l.value.suit).Index()
              || (SfHigh(cards, t) == SfHigh(cards, l.value.suit) && t.Index() <= l.value.suit.Index())
  {
    var best := BestSfSuitBelow(cards, |SUITS|);
    if best.Some? {
      KeyOrder(cards, best.value);
    }
  }

  /** Comparing keys is comparing high ranks, then suits. */
  lemma KeyOrder(cards: seq<Card>, s: Suit)
    requires SfSuit(cards, s)
    requires forall t :: SfSuit(cards, t) ==> SfKey(cards, t) <= SfKey(cards, s)
    ensures forall t :: SfSuit(cards, t) ==>
              SfHigh(cards, t).Index() < SfHigh(cards, s).Index()
              || (SfHigh(cards, t) == SfHigh(cards, s) && t.Index() <= s.Index())
  {
    forall t | SfSuit(cards, t)
      ensures SfHigh(cards, t).Index() < SfHigh(cards, s).Index()
              || (SfHigh(cards, t) == SfHigh(cards, s) && t.Index() <= s.Index())
    {
      var ht, hs := SfHigh(cards, t).Index(), SfHigh(cards, s).Index();
      assert ht * 10 + t.Index() <= hs * 10 + s.Index();
      if ht == hs {
        assert RankAt(ht) == SfHigh(cards, t) && RankAt(hs) == SfHigh(cards, s);
      }
    }
  }

  /** `straight_flush?` as the source runs it: the best suit chosen by key,
      then the Royal loop spending Jokers on the missing high ranks. */
  method StraightFlushCheck(cards: seq<Card>) returns (l: Option<Label>)
    ensures l == StraightFlushOf(cards)
  {
    var best := BestSfSuitBelow(cards, |SUITS|);
    if best.None? {
      return None;
    }
    var royal := CoveredByJokers(SuitCards(cards, best.value), ROYAL, JokerCount(cards));
    return Some(StraightFlush(royal, best.value));
  }

  // ---------------------------------------------------------------------
  // best (lines 123-136)

  /** The check of `best` that reports labels of category `k` (8 for
      `straight_flush?` down to 1 for `pair?`). */
  function CheckOf(cards: seq<Card>, k: nat): (l: Option<Label>)
    requires 1 <= k <= 8
    ensures l.Some? ==> l.value.Category() == k
  {
    match k
    case 8 => StraightFlushOf(cards)
    case 7 => FourOf(cards)
    case 6 => FullHouseOf(cards)
    case 5 => FlushOf(cards)
    case 4 => StraightCheck(cards)
    case 3 => ThreeOf(cards)
    case 2 => TwoPairOf(cards)
    case _ => PairOf(cards)
  }

  /** The checks of categories `k` down to 1 run in turn: the label of the
      first that fires, Nothing when none does. */
  function BestFrom(cards: seq<Card>, k: nat): (l: Label)
    requires k <= 8
    ensures l.Category() <= k
    ensures l != Nothing ==> CheckOf(cards, l.Category()) == Some(l)
    ensures forall j :: l.Category() < j <= k ==> CheckOf(cards, j).None?
  {
    if k == 0 then Nothing
    else match CheckOf(cards, k)
      case Some(l) => l
      case None => BestFrom(cards, k - 1)
  }

  /** `best`: the label of the highest-priority check that fires; the hand
      gets Nothing exactly when no check fires. */
  function Best(cards: seq<Card>): (l: Label)
    ensures l != Nothing ==> CheckOf(cards, l.Category()) == Some(l)
    ensures forall k :: l.Category() < k <= 8 ==> CheckOf(cards, k).None?
    ensures l == Nothing <==> forall k :: 1 <= k <= 8 ==> CheckOf(cards, k).None?
  {
    var l := BestFrom(cards, 8);
    assert l != Nothing ==> CheckOf(cards, l.Category()).Some?;
    l
  }

  /** Every check of categories `k+1` to `n` is nil. */
  ghost predicate NilBetween(cards: seq<Card>, k: nat, n: nat)
    requires n <= 8
    decreases n
  {
    n <= k || (CheckOf(cards, n).None? && NilBetween(cards, k, n - 1))
  }

  /** When check `k` fires with `l` and every check above it is nil, `best`
      reports `l`: the checks below `k` are never run. */
  lemma BestIs(cards: seq<Card>, k: nat, l: Label)
    requires 1 <= k <= 8 && CheckOf(cards, k) == Some(l)
    requires NilBetween(cards, k, 8)
    ensures Best(cards) == l
  {
    BestFromIs(cards, 8, k, l);
  }

  lemma {:induction false} BestFromIs(cards: seq<Card>, n: nat, k: nat, l: Label)
    requires 1 <= k <= n <= 8 && CheckOf(cards, k) == Some(l)
    requires NilBetween(cards, k, n)
    ensures BestFrom(cards, n) == l
  {
    if n > k {
      BestFromIs(cards, n - 1, k, l);
    }
  }

  /** On a hand with at most two Jokers, no rank held twice and no suit
      that can reach five, no check above `straight?` fires: a straight,
      when there is one, is what `best` reports. */
  lemma StraightIsBest(cards: seq<Card>, h: Rank)
    requires JokerCount(cards) <= 2
    requires forall r :: RankCount(cards, r) <= 1
    requires forall s :: SuitCount(cards, s) + JokerCount(cards) < 5
    requires StraightOf(cards) == Some(h)
    ensures Best(cards) == Straight(h)
  {
    assert StraightFlushOf(cards).None? by {
      assert forall s :: !SfSuit(cards, s);
    }
    assert FourOf(cards).None? by {
      assert forall r :: !Qualifies(cards, 4, r);
    }
    assert FullHouseOf(cards).None? by {
      assert TopTriple(cards).None? && TopPairs(cards).None?;
    }
    assert FlushOf(cards).None?;
    BestIs(cards, 4, Straight(h));
  }

  // ---------------------------------------------------------------------
  // best as written, with the nil `high_card` of two_pair? (line 306)

  /** The checks as the source runs them: `two_pair?` may fail. */
  function CheckAsWritten(cards: seq<Card>, k: nat): Result<Option<Label>, Fault>
    requires 1 <= k <= 8
  {
    if k == 2 then TwoPairAsWritten(cards) else Ok(CheckOf(cards, k))
  }

  function BestAsWrittenFrom(cards: seq<Card>, k: nat): Result<Label, Fault>
    requires k <= 8
  {
    if k == 0 then Ok(Nothing)
    else match CheckAsWritten(cards, k)
      case Err(e) => Err(e)
      case Ok(Some(l)) => Ok(l)
      case Ok(None) => BestAsWrittenFrom(cards, k - 1)
  }

  /** `best` as the source runs it: where it returns, it returns `Best`. */
  function BestAsWritten(cards: seq<Card>): (r: Result<Label, Fault>)
    ensures r.Ok? ==> r.value == Best(cards)
  {
    AsWrittenAgrees(cards, 8);
    BestAsWrittenFrom(cards, 8)
  }

  /** Where the source's `best` returns at all, it returns what `Best` does. */
  lemma {:induction false} AsWrittenAgrees(cards: seq<Card>, k: nat)
    requires k <= 8
    ensures BestAsWrittenFrom(cards, k).Ok? ==> BestAsWrittenFrom(cards, k).value == BestFrom(cards, k)
  {
    if k > 0 {
      AsWrittenAgrees(cards, k - 1);
      AgreesStep(cards, k);
    }
  }

  lemma AgreesStep(cards: seq<Card>, k: nat)
    requires 1 <= k <= 8
    requires BestAsWrittenFrom(cards, k - 1).Ok? ==> BestAsWrittenFrom(cards, k - 1).value == BestFrom(cards, k - 1)
    ensures BestAsWrittenFrom(cards, k).Ok? ==> BestAsWrittenFrom(cards, k).value == BestFrom(cards, k)
  {
    var c := CheckAsWritten(cards, k);
    assert c.Ok? ==> c.value == CheckOf(cards, k) by {
      if k == 2 {
        assert c == TwoPairAsWritten(cards);
      }
    }
    if c.Ok? && c.value.Some? {
      assert BestAsWrittenFrom(cards, k) == Ok(c.value.value);
      assert BestFrom(cards, k) == c.value.value;
    } else if c.Ok? {
      assert BestAsWrittenFrom(cards, k) == BestAsWrittenFrom(cards, k - 1);
      assert BestFrom(cards, k) == BestFrom(cards, k - 1);
    }
  }

  /** The source's `best` fails exactly when no check above `two_pair?`
      fires and `two_pair?` itself fails. */
  lemma AsWrittenFails(cards: seq<Card>)
    ensures BestAsWritten(cards).Err? <==>
              StraightFlushOf(cards).None? && FourOf(cards).None? && FullHouseOf(cards).None?
              && FlushOf(cards).None? && StraightCheck(cards).None? && ThreeOf(cards).None?
              && TwoPairAsWritten(cards).Err?
  {
    AsWrittenFailsHigh(cards);
    AsWrittenFailsLow(cards);
  }

  lemma AsWrittenFailsHigh(cards: seq<Card>)
    ensures BestAsWrittenFrom(cards, 8).Err? <==>
              StraightFlushOf(cards).None? && FourOf(cards).None? && FullHouseOf(cards).None?
              && BestAsWrittenFrom(cards, 5).Err?
  {
    AsWrittenStep(cards, 8);
    AsWrittenStep(cards, 7);
    AsWrittenStep(cards, 6);
  }

  lemma AsWrittenFailsLow(cards: seq<Card>)
    ensures BestAsWrittenFrom(cards, 5).Err? <==>
              FlushOf(cards).None? && StraightCheck(cards).None? && ThreeOf(cards).None?
              && TwoPairAsWritten(cards).Err?
  {
    AsWrittenStep(cards, 5);
    AsWrittenStep(cards, 4);
    AsWrittenStep(cards, 3);
    assert BestAsWrittenFrom(cards, 1).Ok? by {
      assert BestAsWrittenFrom(cards, 0).Ok?;
    }
  }

  /** Above `two_pair?` the source's `best` cannot fail: a check that fires
      ends it, one that does not passes on to the next. */
  lemma AsWrittenStep(cards: seq<Card>, k: nat)
    requires 3 <= k <= 8
    ensures CheckOf(cards, k).Some? ==> BestAsWrittenFrom(cards, k).Ok?
    ensures CheckOf(cards, k).None? ==> BestAsWrittenFrom(cards, k) == BestAsWrittenFrom(cards, k - 1)
  {
    assert CheckAsWritten(cards, k) == Ok(CheckOf(cards, k));
  }

  /** A hand without literal cards has no rank and no suit count. */
  lemma {:induction false} NoLiteralsNoCounts(cards: seq<Card>)
    requires Select(cards, Literals) == []
    ensures forall r :: RankCount(cards, r) == 0
    ensures forall s :: SuitCount(cards, s) == 0
    ensures JokerCount(cards) == |cards|
  {
    if cards != [] {
      var tail := cards[1..];
      assert cards[0].Joker?;
      assert Select(tail, Literals) == [];
      NoLiteralsNoCounts(tail);
      forall r ensures RankCount(cards, r) == 0 {
        assert RankCount(tail, r) == 0;
        assert !Selects(OfRank(r), cards[0]);
        assert Select(cards, OfRank(r)) == Select(tail, OfRank(r));
      }
      forall s ensures SuitCount(cards, s) == 0 {
        assert SuitCount(tail, s) == 0;
        assert !Selects(OfSuit(s), cards[0]);
        assert Select(cards, OfSuit(s)) == Select(tail, OfSuit(s));
      }
      assert Select(cards, Jokers) == [cards[0]] + Select(tail, Jokers);
    }
  }

  /** At most all of `rs` are absent, and all of them are when the hand holds
      no rank at all. */
  lemma {:induction false} AbsentBound(cards: seq<Card>, rs: seq<Rank>)
    ensures Absent(cards, rs) <= |rs|
    ensures (forall r :: !Present(cards, r)) ==> Absent(cards, rs) == |rs|
    decreases |rs|
  {
    if rs != [] {
      AbsentBound(cards, rs[..|rs| - 1]);
    }
  }

  /** On a hand of Jokers alone, no check above `two_pair?` fires while there
      are at most four of them, and five or more make the wheel. */
  lemma JokersOnly(cards: seq<Card>)
    requires Select(cards, Literals) == []
    ensures |cards| <= 4 ==>
              StraightFlushOf(cards).None? && FourOf(cards).None? && FullHouseOf(cards).None?
              && FlushOf(cards).None? && StraightCheck(cards).None? && ThreeOf(cards).None?
    ensures |cards| > 4 ==> StraightCheck(cards) == Some(Straight(Five))
  {
    NoLiteralsNoCounts(cards);
    AbsentBound(cards, WHEEL);
    assert ScanAnchors(cards, 0).None?;
    if |cards| <= 4 {
      assert !WheelOk(cards);
      assert StraightOf(cards).None?;
      NoRankedCheckFires(cards);
    } else {
      assert WheelOk(cards);
      assert StraightOf(cards) == Some(Five);
    }
  }

  /** On a hand of Jokers alone `two_pair?` fails as soon as there is one
      Joker: no literal card is left to be `high_card`. */
  lemma JokersOnlyTwoPair(cards: seq<Card>)
    requires Select(cards, Literals) == []
    ensures TwoPairAsWritten(cards).Err? <==> |cards| >= 1
  {
    NoLiteralsNoCounts(cards);
    assert HighUnpaired(cards).None?;
  }

  /** Without a single rank or suit count, none of the checks but
      `straight?` fires. */
  lemma NoRankedCheckFires(cards: seq<Card>)
    requires forall r :: RankCount(cards, r) == 0
    requires forall s :: SuitCount(cards, s) == 0
    ensures StraightFlushOf(cards).None? && FourOf(cards).None? && FullHouseOf(cards).None?
    ensures FlushOf(cards).None? && ThreeOf(cards).None?
    ensures PairOf(cards).None? && TwoPairOf(cards).None?
  {
    assert KindOf(cards, 4).None? && KindOf(cards, 3).None? && KindOf(cards, 2).None?;
    assert HighUnpaired(cards).None?;
    assert TopCandidates(cards).None?;
    assert FlushSuitOf(cards).None?;
    assert BestSfSuitBelow(cards, |SUITS|).None?;
    assert TopTriple(cards).None? && TopPairs(cards).None?;
  }

  /** `two_pair?` fails only on hands without literal cards when three? has
      not fired: a rank held literally, with a Joker, is three of a kind. */
  lemma FailureNeedsNoLiterals(cards: seq<Card>)
    requires ThreeOf(cards).None? && TwoPairAsWritten(cards).Err?
    ensures Select(cards, Literals) == []
  {
    if Select(cards, Literals) != [] {
      LiteralIsPresent(cards, 0);
      var r := Select(cards, Literals)[0].rank;
      assert KindOf(cards, 3).None?;
      assert RankCount(cards, r) != 1;
      assert Qualifies(cards, 3, r);
    }
  }

  /** The source's `best` fails exactly on the hands of one to four Jokers
      and nothing else; every other hand gets the label `Best` gives it. */
  lemma BestAsWrittenFails(cards: seq<Card>)
    ensures BestAsWritten(cards).Err? <==> Select(cards, Literals) == [] && 1 <= |cards| <= 4
    ensures BestAsWritten(cards).Ok? ==> BestAsWritten(cards).value == Best(cards)
  {
    AsWrittenAgrees(cards, 8);
    AsWrittenFails(cards);
    if BestAsWritten(cards).Err? {
      FailureNeedsNoLiterals(cards);
    }
    if Select(cards, Literals) == [] {
      JokersOnly(cards);
      JokersOnlyTwoPair(cards);
    }
  }

  /** A hand of a single Red Joker. */
  function LoneJoker(): seq<Card> {
    [Joker(Red)]
  }

  /** The smallest hand the source's `best` fails on. */
  lemma LoneJokerFails()
    ensures BestAsWritten(LoneJoker()) == Err(NilHighCard)
  {
    SingleJoker(LoneJoker());
  }

  lemma SingleJoker(cards: seq<Card>)
    requires |cards| == 1 && cards[0].Joker?
    ensures BestAsWritten(cards) == Err(NilHighCard)
  {
    assert Select(cards, Literals) == Select(cards[1..], Literals) == [];
    BestAsWrittenFails(cards);
    assert BestAsWritten(cards).Err?;
    assert BestAsWritten(cards).error.NilHighCard?;
  }
}
