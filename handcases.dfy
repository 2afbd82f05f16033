/** Worked hands for `best` (cards.rb:123-136), each in the order `draw`
    sorts it into: a Royal Flush, a wheel completed by two Jokers, four of
    a kind made with a Joker, and a full house made with a Joker. */
module HandCases {
  import opened Wrappers
  import opened Cards
  import opened Tally
  import opened Straights
  import opened Hand

  // ---------------------------------------------------------------------
  // 10, Jack, Queen, King, Ace of Spades: a Royal Flush of Spades.

  function RoyalHand(): seq<Card> {
    [Standard(Ten, Spades), Standard(Jack, Spades), Standard(Queen, Spades),
     Standard(King, Spades), Standard(Ace, Spades)]
  }

  lemma RoyalFlushOfSpades()
    ensures Best(RoyalHand()) == StraightFlush(true, Spades)
  {
    var cards := RoyalHand();
    RoyalFacts(cards);
    RoyalPresent(cards);
    RoyalStraight(cards);
    OneSuitRoyal(cards, Spades);
  }

  /** The hand is five literal cards holding 10 to Ace, all Spades. */
  lemma RoyalFacts(cards: seq<Card>)
    requires cards == RoyalHand()
    ensures Select(cards, Literals) == cards && JokerCount(cards) == 0
    ensures SuitCards(cards, Spades) == cards
    ensures forall s :: s != Spades ==> SuitCount(cards, s) == 0
    ensures forall i :: 0 <= i < 5 ==> cards[i].rank == RankAt(8 + i)
  {
    RoyalRanks(cards);
    NoJokers(cards);
    RoyalSuits(cards);
  }

  lemma RoyalRanks(cards: seq<Card>)
    requires cards == RoyalHand()
    ensures |cards| == 5 && forall i :: 0 <= i < |cards| ==> cards[i].Standard?
    ensures forall i :: 0 <= i < 5 ==> cards[i].rank == RankAt(8 + i)
  {
  }

  lemma RoyalSuits(cards: seq<Card>)
    requires cards == RoyalHand()
    ensures SuitCards(cards, Spades) == cards
    ensures forall s :: s != Spades ==> SuitCount(cards, s) == 0
  {
    forall s | s != Spades ensures SuitCount(cards, s) == 0 {
      NoneOfSuit(cards, s);
    }
    AllOfSuit(cards, Spades);
  }

  lemma {:induction false} NoneOfSuit(cards: seq<Card>, s: Suit)
    requires forall i :: 0 <= i < |cards| ==> cards[i].Standard? && cards[i].suit != s
    ensures SuitCount(cards, s) == 0
  {
    if cards != [] {
      NoneOfSuit(cards[1..], s);
    }
  }

  lemma {:induction false} AllOfSuit(cards: seq<Card>, s: Suit)
    requires forall i :: 0 <= i < |cards| ==> cards[i].Standard? && cards[i].suit == s
    ensures SuitCards(cards, s) == cards
  {
    if cards != [] {
      AllOfSuit(cards[1..], s);
    }
  }

  /** A hand whose ranks run from 10 to Ace has none of them absent. */
  lemma RoyalPresent(cards: seq<Card>)
    requires |cards| == 5 && Select(cards, Literals) == cards
    requires forall i :: 0 <= i < 5 ==> cards[i].rank == RankAt(8 + i)
    ensures forall i :: 8 <= i <= 12 ==> Present(cards, RankAt(i))
    ensures Absent(cards, ROYAL) == 0
  {
    forall i | 8 <= i <= 12 ensures Present(cards, RankAt(i)) {
      LiteralIsPresent(cards, i - 8);
    }
    assert ROYAL == [RankAt(8), RankAt(9), RankAt(10), RankAt(11), RankAt(12)];
    AllPresent(cards, ROYAL);
  }

  /** Scanning from the Ace down, only the 10 has four ranks above it. */
  lemma {:induction false} RoyalStraight(cards: seq<Card>)
    requires |cards| == 5 && Select(cards, Literals) == cards && JokerCount(cards) == 0
    requires forall i :: 0 <= i < 5 ==> cards[i].rank == RankAt(8 + i)
    ensures StraightOf(cards) == Some(Ace)
  {
    RoyalPresent(cards);
    NoGaps(cards, 8, 4);
    ScanMisses(cards, 5);
    ScanMisses(cards, 4);
    ScanMisses(cards, 3);
    ScanMisses(cards, 2);
    ScanHits(cards, 1);
    StraightFromAnchor(cards, 0);
  }

  /** A Joker-free hand all of one suit whose cards form a straight with
      10 to Ace present is a Royal Flush of that suit. */
  lemma OneSuitRoyal(cards: seq<Card>, s: Suit)
    requires JokerCount(cards) == 0 && |cards| >= 5
    requires SuitCards(cards, s) == cards
    requires forall t :: t != s ==> SuitCount(cards, t) == 0
    requires StraightOf(cards).Some?
    requires Absent(cards, ROYAL) == 0
    ensures Best(cards) == StraightFlush(true, s)
  {
    SfOnlyIn(cards, s);
    OnlySfSuit(cards, s);
    assert IsRoyal(cards, s);
    BestIs(cards, 8, StraightFlush(true, s));
  }

  lemma SfOnlyIn(cards: seq<Card>, s: Suit)
    requires JokerCount(cards) == 0 && |cards| >= 5
    requires SuitCards(cards, s) == cards
    requires forall t :: t != s ==> SuitCount(cards, t) == 0
    requires StraightOf(cards).Some?
    ensures SfSuit(cards, s)
    ensures forall t :: t != s ==> !SfSuit(cards, t)
  {
  }

  /** When `s` is the only suit that qualifies, `straight_flush?` reports it. */
  lemma OnlySfSuit(cards: seq<Card>, s: Suit)
    requires SfSuit(cards, s)
    requires forall t :: t != s ==> !SfSuit(cards, t)
    ensures StraightFlushOf(cards) == Some(StraightFlush(IsRoyal(cards, s), s))
  {
    var best := BestSfSuitBelow(cards, |SUITS|);
    assert best.Some? by {
      assert s.Index() < |SUITS|;
    }
    assert best.value == s;
  }

  // ---------------------------------------------------------------------
  // 2, 3, Ace and two Jokers: the wheel, a 5 high straight.

  function WheelHand(): seq<Card> {
    [Standard(Two, Clubs), Standard(Three, Hearts), Standard(Ace, Diamonds),
     Joker(Red), Joker(Black)]
  }

  lemma WheelWithJokers()
    ensures Best(WheelHand()) == Straight(Five)
  {
    var cards := WheelHand();
    WheelFacts(cards);
    WheelStraight(cards);
    StraightIsBest(cards, Five);
  }

  lemma WheelFacts(cards: seq<Card>)
    requires cards == WheelHand()
    ensures Select(cards, Literals) == [Standard(Two, Clubs), Standard(Three, Hearts), Standard(Ace, Diamonds)]
    ensures JokerCount(cards) == 2
    ensures forall r :: RankCount(cards, r) <= 1
    ensures forall s :: SuitCount(cards, s) <= 1
    ensures forall r :: Present(cards, r) <==> r == Two || r == Three || r == Ace
  {
    forall r ensures Present(cards, r) <==> r == Two || r == Three || r == Ace {
      PresentMeans(cards, r);
    }
  }

  /** No literal card anchors a straight (the Ace has nothing above it, the
      2 and 3 leave three gaps for two Jokers), and the Jokers fill the 4
      and the 5 of the wheel. */
  lemma {:induction false} WheelStraight(cards: seq<Card>)
    requires Select(cards, Literals) == [Standard(Two, Clubs), Standard(Three, Hearts), Standard(Ace, Diamonds)]
    requires JokerCount(cards) == 2
    requires forall r :: Present(cards, r) <==> r == Two || r == Three || r == Ace
    ensures StraightOf(cards) == Some(Five)
  {
    var lits := Select(cards, Literals);
    assert lits[2].rank.Index() == 12 && !AnchorOk(cards, 12);
    ScanMisses(cards, 3);
    assert lits[1].rank.Index() == 1 && !AnchorOk(cards, 1) by {
      GapsFromThree(cards);
    }
    ScanMisses(cards, 2);
    assert lits[0].rank.Index() == 0 && !AnchorOk(cards, 0) by {
      GapsFromTwo(cards);
    }
    ScanMisses(cards, 1);
    StraightWithoutAnchor(cards);
    WheelGaps(cards);
  }

  /** Above the 3, the 4, 5, 6 and 7 are all missing. */
  lemma GapsFromThree(cards: seq<Card>)
    requires forall r :: Present(cards, r) <==> r == Two || r == Three || r == Ace
    ensures GapsAbove(cards, 1, 4) == 4
  {
    assert RankAt(2) == Four && RankAt(3) == Five && RankAt(4) == Six && RankAt(5) == Seven;
    assert GapsAbove(cards, 1, 1) == 1 && GapsAbove(cards, 1, 2) == 2;
    assert GapsAbove(cards, 1, 3) == 3;
  }

  /** Above the 2, the 3 is held but the 4, 5 and 6 are missing. */
  lemma GapsFromTwo(cards: seq<Card>)
    requires forall r :: Present(cards, r) <==> r == Two || r == Three || r == Ace
    ensures GapsAbove(cards, 0, 4) == 3
  {
    assert RankAt(1) == Three && RankAt(2) == Four && RankAt(3) == Five && RankAt(4) == Six;
    assert GapsAbove(cards, 0, 1) == 0 && GapsAbove(cards, 0, 2) == 1;
    assert GapsAbove(cards, 0, 3) == 2;
  }

  /** Of the wheel's ranks, only the 4 and the 5 are missing. */
  lemma WheelGaps(cards: seq<Card>)
    requires forall r :: Present(cards, r) <==> r == Two || r == Three || r == Ace
    ensures Absent(cards, WHEEL) == 2
  {
    AbsentSnoc(cards, [], Ace);
    assert [] + [Ace] == [Ace];
    AbsentSnoc(cards, [Ace], Two);
    assert [Ace] + [Two] == [Ace, Two];
    AbsentSnoc(cards, [Ace, Two], Three);
    assert [Ace, Two] + [Three] == [Ace, Two, Three];
    AbsentSnoc(cards, [Ace, Two, Three], Four);
    assert [Ace, Two, Three] + [Four] == [Ace, Two, Three, Four];
    AbsentSnoc(cards, [Ace, Two, Three, Four], Five);
    assert [Ace, Two, Three, Four] + [Five] == WHEEL;
  }

  /** Counting the absent ranks of a list one rank at a time. */
  lemma AbsentSnoc(cards: seq<Card>, rs: seq<Rank>, r: Rank)
    ensures Absent(cards, rs + [r]) == Absent(cards, rs) + if Present(cards, r) then 0 else 1
  {
    assert (rs + [r])[..|rs|] == rs;
  }

  lemma {:induction false} AllPresent(cards: seq<Card>, rs: seq<Rank>)
    requires forall i :: 0 <= i < |rs| ==> Present(cards, rs[i])
    ensures Absent(cards, rs) == 0
    decreases |rs|
  {
    if rs != [] {
      AllPresent(cards, rs[..|rs| - 1]);
    }
  }

  // ---------------------------------------------------------------------
  // 2, three 7s and a Joker: four 7s.

  function SevensHand(): seq<Card> {
    [Standard(Two, Spades), Standard(Seven, Clubs), Standard(Seven, Diamonds),
     Standard(Seven, Hearts), Joker(Red)]
  }

  lemma FourSevens()
    ensures Best(SevensHand()) == FourOfAKind(Seven)
  {
    var cards := SevensHand();
    SevensFacts(cards);
    TripleAndJokerMakeFour(cards, Seven);
  }

  lemma SevensFacts(cards: seq<Card>)
    requires cards == SevensHand()
    ensures JokerCount(cards) == 1
    ensures RankCount(cards, Seven) == 3
    ensures forall r :: r != Seven ==> RankCount(cards, r) <= 1
    ensures forall s :: SuitCount(cards, s) <= 1
  {
  }

  /** With one Joker, three of a rank and no other rank held twice, `best`
      reports four of that rank, unless a straight flush is possible, which
      needs four cards of one suit. */
  lemma TripleAndJokerMakeFour(cards: seq<Card>, r: Rank)
    requires JokerCount(cards) == 1 && RankCount(cards, r) == 3
    requires forall q :: q != r ==> RankCount(cards, q) <= 1
    requires forall s :: SuitCount(cards, s) < 4
    ensures Best(cards) == FourOfAKind(r)
  {
    assert Qualifies(cards, 4, r);
    assert KindOf(cards, 4) == Some(r);
    assert StraightFlushOf(cards).None? by {
      assert forall s :: !SfSuit(cards, s);
    }
    BestIs(cards, 7, FourOfAKind(r));
  }

  // ---------------------------------------------------------------------
  // 5, 5, 8, 8 and the Black Joker: a full house, eights over fives.

  function EightsFivesHand(): seq<Card> {
    [Standard(Five, Hearts), Standard(Five, Spades), Standard(Eight, Clubs),
     Standard(Eight, Diamonds), Joker(Black)]
  }

  lemma EightsOverFives()
    ensures Best(EightsFivesHand()) == FullHouse(Eight, Five)
  {
    var cards := EightsFivesHand();
    EightsFivesFacts(cards);
    TwoPairsAndJokerMakeFullHouse(cards, Eight, Five);
  }

  lemma EightsFivesFacts(cards: seq<Card>)
    requires cards == EightsFivesHand()
    ensures JokerCount(cards) == 1
    ensures forall r :: RankCount(cards, r) <= 2
    ensures forall r :: TruePair(cards, r) <==> r == Eight || r == Five
    ensures forall s :: SuitCount(cards, s) <= 1
  {
  }

  /** With one Joker and exactly two ranks held twice, `best` reports a full
      house of the higher over the lower: the Joker makes only three of a
      kind, and a straight flush would need four cards of one suit. */
  lemma TwoPairsAndJokerMakeFullHouse(cards: seq<Card>, a: Rank, b: Rank)
    requires JokerCount(cards) == 1
    requires forall q :: RankCount(cards, q) <= 2
    requires forall q :: TruePair(cards, q) <==> q == a || q == b
    requires b.Index() < a.Index()
    requires forall s :: SuitCount(cards, s) < 4
    ensures Best(cards) == FullHouse(a, b)
  {
    ShortSuitsNoStraightFlush(cards);
    NoRankReachesFour(cards);
    TopPairsAre(cards, a, b);
    BestIs(cards, 6, FullHouse(a, b));
  }

  /** With one Joker, no suit can reach five cards unless it holds four. */
  lemma ShortSuitsNoStraightFlush(cards: seq<Card>)
    requires JokerCount(cards) == 1
    requires forall s :: SuitCount(cards, s) < 4
    ensures StraightFlushOf(cards).None?
  {
    assert forall s :: !SfSuit(cards, s);
  }

  /** With one Joker and no rank held three times, no four of a kind. */
  lemma NoRankReachesFour(cards: seq<Card>)
    requires JokerCount(cards) == 1
    requires forall q :: RankCount(cards, q) <= 2
    ensures FourOf(cards).None?
  {
    assert forall r :: !Qualifies(cards, 4, r);
  }

  /** When exactly two ranks are truly paired, they are the two highest. */
  lemma TopPairsAre(cards: seq<Card>, a: Rank, b: Rank)
    requires forall q :: TruePair(cards, q) <==> q == a || q == b
    requires b.Index() < a.Index()
    ensures TopPairs(cards) == Some((a, b))
  {
    var top := TopPairs(cards);
    assert TruePair(cards, a) && TruePair(cards, b);
    assert top.Some?;
    var (hi, lo) := top.value;
    assert hi == a by {
      assert a.Index() <= hi.Index();
    }
  }
}
