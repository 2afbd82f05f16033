/** When `best` of cards.rb (lines 123-136) gives the same label: for two
    hands holding the same cards, both in the order `draw` sorts them into
    (line 110), every check of `Hand` agrees, and so does `best`. */
module HandTheory {
  import opened Wrappers
  import opened Cards
  import opened Tally
  import opened Straights
  import opened Hand

  /** Two arrangements of the same cards that `draw` could hand out. */
  predicate SameDrawnHand(a: seq<Card>, b: seq<Card>) {
    SortedByKey(a) && SortedByKey(b) && multiset(a) == multiset(b)
  }

  /** Hands with the same literal counts and the same number of Jokers. */
  predicate SameCounts(a: seq<Card>, b: seq<Card>) {
    JokerCount(a) == JokerCount(b)
    && (forall r :: RankCount(a, r) == RankCount(b, r))
    && (forall s :: SuitCount(a, s) == SuitCount(b, s))
  }

  lemma DrawnHandCounts(a: seq<Card>, b: seq<Card>)
    requires SameDrawnHand(a, b)
    ensures SameCounts(a, b)
  {
    SameCardsSameCounts(a, b);
  }

  // ---------------------------------------------------------------------
  // The highest-rank and highest-suit picks depend only on the counts.

  lemma SameKindOf(a: seq<Card>, b: seq<Card>, n: nat)
    requires SameCounts(a, b)
    ensures KindOf(a, n) == KindOf(b, n)
  {
    assert forall q :: Qualifies(a, n, q) == Qualifies(b, n, q);
    var x, y := KindOf(a, n), KindOf(b, n);
    if x.Some? && y.Some? {
      assert x.value.Index() == y.value.Index();
    }
  }

  lemma SameFlushSuitOf(a: seq<Card>, b: seq<Card>)
    requires SameCounts(a, b)
    ensures FlushSuitOf(a) == FlushSuitOf(b)
  {
    assert forall s :: FlushSuit(a, s) == FlushSuit(b, s);
    var x, y := FlushSuitOf(a), FlushSuitOf(b);
    if x.Some? && y.Some? {
      assert x.value.Index() == y.value.Index();
    }
  }

  lemma SameTopTriple(a: seq<Card>, b: seq<Card>)
    requires SameCounts(a, b)
    ensures TopTriple(a) == TopTriple(b)
  {
    assert forall q :: TrueTriple(a, q) == TrueTriple(b, q);
    var x, y := TopTriple(a), TopTriple(b);
    if x.Some? && y.Some? {
      assert x.value.Index() == y.value.Index();
    }
  }

  lemma SamePartnerOf(a: seq<Card>, b: seq<Card>, t: Rank)
    requires SameCounts(a, b)
    ensures PartnerOf(a, t) == PartnerOf(b, t)
  {
    assert forall q :: TruePair(a, q) == TruePair(b, q);
    var x, y := PartnerOf(a, t), PartnerOf(b, t);
    if x.Some? && y.Some? {
      assert x.value.Index() == y.value.Index();
    }
  }

  lemma SameTopPairs(a: seq<Card>, b: seq<Card>)
    requires SameCounts(a, b)
    ensures TopPairs(a) == TopPairs(b)
  {
    assert forall q :: TruePair(a, q) == TruePair(b, q);
    var x, y := TopPairs(a), TopPairs(b);
    if x.Some? && y.Some? {
      assert x.value.0.Index() == y.value.0.Index();
      assert x.value.1.Index() == y.value.1.Index();
    }
  }

  lemma SameHighUnpaired(a: seq<Card>, b: seq<Card>)
    requires SameCounts(a, b)
    ensures HighUnpaired(a) == HighUnpaired(b)
  {
    var x, y := HighUnpaired(a), HighUnpaired(b);
    if x.Some? && y.Some? {
      assert x.value.Index() == y.value.Index();
    }
  }

  lemma SameTopCandidates(a: seq<Card>, b: seq<Card>)
    requires SameCounts(a, b)
    ensures TopCandidates(a) == TopCandidates(b)
  {
    SameHighUnpaired(a, b);
    assert forall q :: PairCandidate(a, q) == PairCandidate(b, q);
    var x, y := TopCandidates(a), TopCandidates(b);
    if x.Some? && y.Some? {
      assert x.value.0.Index() == y.value.0.Index();
      assert x.value.1.Index() == y.value.1.Index();
    }
  }

  // ---------------------------------------------------------------------
  // Straight flushes: a suit's cards of a sorted hand are sorted, so the
  // straight found among them is the same for both hands.

  /** Both hands agree on whether a suit qualifies, on its straight's high
      rank, and on whether it is Royal. */
  lemma SameSuitTests(a: seq<Card>, b: seq<Card>, s: Suit)
    requires SameDrawnHand(a, b)
    ensures SfSuit(a, s) == SfSuit(b, s)
    ensures SfKey(a, s) == SfKey(b, s)
    ensures IsRoyal(a, s) == IsRoyal(b, s)
  {
    var sa, sb := SuitCards(a, s), SuitCards(b, s);
    SameCardsSameCounts(a, b);
    SelectKeepsOrder(a, OfSuit(s));
    SelectKeepsOrder(b, OfSuit(s));
    StraightSameForSameCards(sa, sb);
    SameCardsSameCounts(sa, sb);
    assert forall r :: Present(sa, r) == Present(sb, r);
    SameAbsent(sa, sb, ROYAL);
  }

  lemma {:induction false} SameBestSfSuit(a: seq<Card>, b: seq<Card>, k: nat)
    requires k <= 4
    requires forall s :: SfSuit(a, s) == SfSuit(b, s) && SfKey(a, s) == SfKey(b, s)
    ensures BestSfSuitBelow(a, k) == BestSfSuitBelow(b, k)
  {
    if k > 0 {
      SameBestSfSuit(a, b, k - 1);
      SameBestSfSuitStep(a, b, k);
    }
  }

  lemma SameBestSfSuitStep(a: seq<Card>, b: seq<Card>, k: nat)
    requires 1 <= k <= 4
    requires forall s :: SfSuit(a, s) == SfSuit(b, s) && SfKey(a, s) == SfKey(b, s)
    requires BestSfSuitBelow(a, k - 1) == BestSfSuitBelow(b, k - 1)
    ensures BestSfSuitBelow(a, k) == BestSfSuitBelow(b, k)
  {
    var s := SuitAt(k - 1);
    assert SfSuit(a, s) == SfSuit(b, s) && SfKey(a, s) == SfKey(b, s);
    var rest := BestSfSuitBelow(a, k - 1);
    if rest.Some? {
      assert SfKey(a, rest.value) == SfKey(b, rest.value);
    }
  }

  // ---------------------------------------------------------------------
  // The checks, one by one, then `best`.

  lemma SameStraightFlush(a: seq<Card>, b: seq<Card>)
    requires SameDrawnHand(a, b)
    ensures StraightFlushOf(a) == StraightFlushOf(b)
  {
    forall s ensures SfSuit(a, s) == SfSuit(b, s) && SfKey(a, s) == SfKey(b, s) && IsRoyal(a, s) == IsRoyal(b, s) {
      SameSuitTests(a, b, s);
    }
    SameBestSfSuit(a, b, |SUITS|);
  }

  lemma SameFullHouse(a: seq<Card>, b: seq<Card>)
    requires SameCounts(a, b)
    ensures FullHouseOf(a) == FullHouseOf(b)
  {
    SameTopTriple(a, b);
    SameTopPairs(a, b);
    if TopTriple(a).Some? {
      SamePartnerOf(a, b, TopTriple(a).value);
    }
  }

  lemma SameCheck(a: seq<Card>, b: seq<Card>, k: nat)
    requires SameDrawnHand(a, b) && 1 <= k <= 8
    ensures CheckOf(a, k) == CheckOf(b, k)
  {
    DrawnHandCounts(a, b);
    if k == 8 {
      SameStraightFlush(a, b);
    } else if k == 7 {
      SameKindOf(a, b, 4);
    } else if k == 6 {
      SameFullHouse(a, b);
    } else if k == 5 {
      SameFlushSuitOf(a, b);
    } else if k == 4 {
      StraightSameForSameCards(a, b);
    } else if k == 3 {
      SameKindOf(a, b, 3);
    } else if k == 2 {
      SameTopCandidates(a, b);
    } else {
      SameKindOf(a, b, 2);
    }
  }

  lemma {:induction false} SameBestFrom(a: seq<Card>, b: seq<Card>, k: nat)
    requires SameDrawnHand(a, b) && k <= 8
    ensures BestFrom(a, k) == BestFrom(b, k)
  {
    if k > 0 {
      SameCheck(a, b, k);
      SameBestFrom(a, b, k - 1);
    }
  }

  /** `best` gives the same label for the same cards in the order `draw`
      sorts them into. (On unsorted hands it need not: see
      `BestDependsOnOrder`.) */
  lemma BestDeterministic(a: seq<Card>, b: seq<Card>)
    requires SameDrawnHand(a, b)
    ensures Best(a) == Best(b)
  {
    SameBestFrom(a, b, 8);
  }

  /** The cards 7, 6, 5, 4, 3, 2 of mixed suits get a 6 high straight from
      `best` in that order and a 7 high one sorted ascending: without the
      sorted order of `draw`, `best` is not a function of the cards. */
  lemma BestDependsOnOrder()
    ensures Best(DescendingRun()) == Straight(Six)
    ensures Best(AscendingRun()) == Straight(Seven)
    ensures multiset(DescendingRun()) == multiset(AscendingRun())
  {
    StraightDependsOnOrder();
    RunCounts(DescendingRun());
    StraightIsBest(DescendingRun(), Six);
    RunCounts(AscendingRun());
    StraightIsBest(AscendingRun(), Seven);
  }

  /** Either order of the run has no Joker, one card of each rank held and
      at most two of each suit. */
  lemma RunCounts(cards: seq<Card>)
    requires cards == DescendingRun() || cards == AscendingRun()
    ensures JokerCount(cards) == 0
    ensures forall r :: RankCount(cards, r) <= 1
    ensures forall s :: SuitCount(cards, s) <= 2
  {
    RunFacts(cards);
    forall r ensures RankCount(cards, r) <= 1 {
      RunRankCount(cards, r);
    }
    forall s ensures SuitCount(cards, s) <= 2 {
      RunSuitCount(cards, s);
    }
  }

  lemma RunRankCount(cards: seq<Card>, r: Rank)
    requires cards == DescendingRun() || cards == AscendingRun()
    ensures RankCount(cards, r) <= 1
  {
  }

  lemma RunSuitCount(cards: seq<Card>, s: Suit)
    requires cards == DescendingRun() || cards == AscendingRun()
    ensures SuitCount(cards, s) <= 2
  {
    match s
    case Clubs =>
    case Diamonds =>
    case Hearts =>
    case Spades =>
  }

  /** The same holds for `best` as written, failure included. */
  lemma BestAsWrittenDeterministic(a: seq<Card>, b: seq<Card>)
    requires SameDrawnHand(a, b)
    ensures BestAsWritten(a) == BestAsWritten(b)
  {
    BestDeterministic(a, b);
    BestAsWrittenFails(a);
    BestAsWrittenFails(b);
    SelectSameCards(a, b, Literals);
    assert |a| == |multiset(a)| == |multiset(b)| == |b|;
    assert (Select(a, Literals) == []) == (Select(b, Literals) == []);
    if BestAsWritten(a).Err? {
      assert BestAsWritten(a).error == NilHighCard == BestAsWritten(b).error;
    }
  }
}
