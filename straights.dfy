/** `Hand.straight?` of cards.rb (lines 170-220): the straight search, with
    Jokers covering missing ranks, as a specification function and as the
    source's loop, and what it finds. */
module Straights {
  import opened Wrappers
  import opened Cards
  import opened Tally

  /** The ranks of the wheel, in the order the source tests them. */
  const WHEEL: seq<Rank> := [Ace, Two, Three, Four, Five]

  /** How many ranks above its anchor a straight needs (`(1..4).each`). */
  const SPAN: nat := 4

  /** How many of the ranks `rs` are literally absent from the hand. */
  function Absent(cards: seq<Card>, rs: seq<Rank>): nat
    decreases |rs|
  {
    if rs == [] then 0
    else Absent(cards, rs[..|rs| - 1]) + (if Present(cards, rs[|rs| - 1]) then 0 else 1)
  }

  /** Of the ranks one to `k` places above position `v` of RANK_ORDER, how
      many exist in RANK_ORDER but are absent from the hand. */
  function GapsAbove(cards: seq<Card>, v: nat, k: nat): nat
    requires v < 13
  {
    if k == 0 then 0
    else GapsAbove(cards, v, k - 1) + (if v + k <= 12 && !Present(cards, RankAt(v + k)) then 1 else 0)
  }

  /** A card at position `v` anchors a straight: the four ranks above it
      exist, and the Jokers (all of them, afresh for every anchor) cover
      those of the four that are missing. */
  predicate AnchorOk(cards: seq<Card>, v: nat)
    requires v < 13
  {
    v + SPAN <= 12 && GapsAbove(cards, v, SPAN) <= JokerCount(cards)
  }

  /** The wheel (Ace to 5): an Ace or a Joker is in the hand, and the
      Jokers cover every missing rank of Ace, 2, 3, 4, 5. */
  predicate WheelOk(cards: seq<Card>) {
    (Present(cards, Ace) || JokerCount(cards) > 0) && Absent(cards, WHEEL) <= JokerCount(cards)
  }

  /** Tries the literal cards at positions k-1, k-2, ..., 0 as anchors (the
      source's `reverse.each`) and gives the position of the first that
      works: no card after it is an anchor, and with None no card is. */
  function ScanAnchors(cards: seq<Card>, k: nat): (i: Option<nat>)
    requires k <= |Select(cards, Literals)|
    ensures i.None? ==> NoAnchorIn(cards, 0, k)
    ensures i.Some? ==> i.value < k && AnchorOk(cards, Select(cards, Literals)[i.value].rank.Index())
    ensures i.Some? ==> NoAnchorIn(cards, i.value + 1, k)
  {
    var lits := Select(cards, Literals);
    if k == 0 then None
    else if AnchorOk(cards, lits[k - 1].rank.Index()) then Some(k - 1)
    else ScanAnchors(cards, k - 1)
  }

  /** None of the literal cards at positions lo to hi-1 anchors a straight. */
  ghost predicate NoAnchorIn(cards: seq<Card>, lo: nat, hi: nat)
    requires hi <= |Select(cards, Literals)|
    decreases hi
  {
    hi <= lo
    || (!AnchorOk(cards, Select(cards, Literals)[hi - 1].rank.Index()) && NoAnchorIn(cards, lo, hi - 1))
  }

  lemma {:induction false} NoAnchorInMeans(cards: seq<Card>, lo: nat, hi: nat, j: nat)
    requires hi <= |Select(cards, Literals)| && NoAnchorIn(cards, lo, hi)
    requires lo <= j < hi
    ensures !AnchorOk(cards, Select(cards, Literals)[j].rank.Index())
    decreases hi
  {
    if j < hi - 1 {
      NoAnchorInMeans(cards, lo, hi - 1, j);
    }
  }

  /** `straight?`: the top rank of the straight found, or None for nil. */
  function StraightOf(cards: seq<Card>): (h: Option<Rank>)
    ensures h.Some? ==> Five.Index() <= h.value.Index()
  {
    var lits := Select(cards, Literals);
    match ScanAnchors(cards, |lits|)
    case Some(i) => Some(RankAt(lits[i].rank.Index() + 4))
    case None => if WheelOk(cards) then Some(Five) else None
  }

  /** A rank the hand holds literally that anchors a straight. */
  ghost predicate Anchors(cards: seq<Card>, r: Rank) {
    Present(cards, r) && AnchorOk(cards, r.Index())
  }

  /** The hand has a straight exactly when some rank it holds anchors one or
      the wheel can be completed; the wheel is reported (as 5 high) only when
      no anchor works, and an anchored straight is named by the rank four
      places above a rank the hand holds. */
  lemma StraightFound(cards: seq<Card>)
    ensures StraightOf(cards).Some? <==> (exists r :: Anchors(cards, r)) || WheelOk(cards)
    ensures StraightOf(cards) == Some(Five) <==> (forall r :: !Anchors(cards, r)) && WheelOk(cards)
  {
    ScanFindsAnchor(cards);
    var lits := Select(cards, Literals);
    var scan := ScanAnchors(cards, |lits|);
    if scan.Some? {
      StraightFromAnchor(cards, scan.value);
      assert StraightOf(cards).value.Index() >= 4;
    } else {
      StraightWithoutAnchor(cards);
    }
  }

  /** The scan finds an anchor exactly when some held rank is one. */
  lemma ScanFindsAnchor(cards: seq<Card>)
    ensures ScanAnchors(cards, |Select(cards, Literals)|).Some? <==> exists r :: Anchors(cards, r)
  {
    var lits := Select(cards, Literals);
    var scan := ScanAnchors(cards, |lits|);
    if exists r :: Anchors(cards, r) {
      var r :| Anchors(cards, r);
      var j := PresentLiteralIndex(cards, r);
      if scan.None? {
        NoAnchorInMeans(cards, 0, |lits|, j);
      }
    }
    if scan.Some? {
      var i := scan.value;
      LiteralIsPresent(cards, i);
      assert Anchors(cards, lits[i].rank);
    }
  }

  /** On a hand sorted as `draw` leaves it, the straight reported is the
      highest one: no rank the hand holds anchors a higher straight. */
  lemma StraightIsHighestWhenSorted(cards: seq<Card>)
    requires SortedByKey(cards)
    ensures forall r :: Anchors(cards, r) ==>
              StraightOf(cards).Some? && r.Index() + 4 <= StraightOf(cards).value.Index()
  {
    SelectKeepsOrder(cards, Literals);
    forall r | Anchors(cards, r)
      ensures StraightOf(cards).Some? && r.Index() + 4 <= StraightOf(cards).value.Index()
    {
      AnchorBelowReported(cards, r);
    }
  }

  /** In sorted literal cards, an anchor sits at or below the position the
      scan stops at, so its rank is at most that of the reported anchor. */
  lemma AnchorBelowReported(cards: seq<Card>, r: Rank)
    requires SortedByKey(Select(cards, Literals)) && Anchors(cards, r)
    ensures StraightOf(cards).Some? && r.Index() + 4 <= StraightOf(cards).value.Index()
  {
    var lits := Select(cards, Literals);
    var j := PresentLiteralIndex(cards, r);
    ScanReachesAnchor(cards, j);
    var i := ScanAnchors(cards, |lits|).value;
    assert SortKey(lits[j]) <= SortKey(lits[i]);
    assert StraightOf(cards) == Some(RankAt(lits[i].rank.Index() + 4));
  }

  /** The scan stops at or after every literal card that anchors a
      straight. */
  lemma ScanReachesAnchor(cards: seq<Card>, j: nat)
    requires j < |Select(cards, Literals)|
    requires AnchorOk(cards, Select(cards, Literals)[j].rank.Index())
    ensures ScanAnchors(cards, |Select(cards, Literals)|).Some?
    ensures j <= ScanAnchors(cards, |Select(cards, Literals)|).value
  {
    var lits := Select(cards, Literals);
    var scan := ScanAnchors(cards, |lits|);
    if scan.None? {
      NoAnchorInMeans(cards, 0, |lits|, j);
    } else if scan.value < j {
      NoAnchorInMeans(cards, scan.value + 1, |lits|, j);
    }
  }

  /** Two hands holding the same cards, both in `draw`'s order, have the
      same straight. */
  lemma StraightSameForSameCards(a: seq<Card>, b: seq<Card>)
    requires SortedByKey(a) && SortedByKey(b) && multiset(a) == multiset(b)
    ensures StraightOf(a) == StraightOf(b)
  {
    SameCardsSameCounts(a, b);
    SameTestsForSameRanks(a, b);
    SameKindOfStraight(a, b);
    if StraightOf(a).Some? && StraightOf(a) != Some(Five) {
      SameAnchoredStraight(a, b);
    }
  }

  lemma SameKindOfStraight(a: seq<Card>, b: seq<Card>)
    requires forall r :: Anchors(a, r) == Anchors(b, r)
    requires WheelOk(a) == WheelOk(b)
    ensures StraightOf(a).Some? == StraightOf(b).Some?
    ensures StraightOf(a) == Some(Five) <==> StraightOf(b) == Some(Five)
  {
    StraightFound(a);
    StraightFound(b);
  }

  lemma SameAnchoredStraight(a: seq<Card>, b: seq<Card>)
    requires SortedByKey(a) && SortedByKey(b)
    requires forall r :: Anchors(a, r) == Anchors(b, r)
    requires StraightOf(a).Some? && StraightOf(a) != Some(Five)
    requires StraightOf(b).Some? && StraightOf(b) != Some(Five)
    ensures StraightOf(a) == StraightOf(b)
  {
    var ra := AnchorOf(a);
    var rb := AnchorOf(b);
    assert Anchors(b, ra) && Anchors(a, rb);
    SelectKeepsOrder(a, Literals);
    SelectKeepsOrder(b, Literals);
    AnchorBelowReported(a, rb);
    AnchorBelowReported(b, ra);
    assert ra.Index() == rb.Index();
  }

  /** The held rank that anchors the straight reported (when it is not
      the wheel). */
  lemma AnchorOf(cards: seq<Card>) returns (r: Rank)
    requires StraightOf(cards).Some? && StraightOf(cards) != Some(Five)
    ensures Anchors(cards, r) && StraightOf(cards).value == RankAt(r.Index() + 4)
  {
    var lits := Select(cards, Literals);
    var i := ScanAnchors(cards, |lits|).value;
    LiteralIsPresent(cards, i);
    r := lits[i].rank;
  }

  /** The anchor and wheel tests read a hand only through which ranks it
      holds and how many Jokers it has. */
  lemma SameTestsForSameRanks(a: seq<Card>, b: seq<Card>)
    requires forall r :: RankCount(a, r) == RankCount(b, r)
    requires JokerCount(a) == JokerCount(b)
    ensures forall r :: Anchors(a, r) == Anchors(b, r)
    ensures WheelOk(a) == WheelOk(b)
  {
    assert forall r :: Present(a, r) == Present(b, r);
    forall r ensures Anchors(a, r) == Anchors(b, r) {
      SameGaps(a, b, r.Index(), 4);
    }
    SameAbsent(a, b, WHEEL);
  }

  lemma {:induction false} SameGaps(a: seq<Card>, b: seq<Card>, v: nat, k: nat)
    requires v < 13
    requires forall r :: Present(a, r) == Present(b, r)
    ensures GapsAbove(a, v, k) == GapsAbove(b, v, k)
  {
    if k > 0 {
      SameGaps(a, b, v, k - 1);
    }
  }

  lemma {:induction false} SameAbsent(a: seq<Card>, b: seq<Card>, rs: seq<Rank>)
    requires forall r :: Present(a, r) == Present(b, r)
    ensures Absent(a, rs) == Absent(b, rs)
    decreases |rs|
  {
    if rs != [] {
      SameAbsent(a, b, rs[..|rs| - 1]);
    }
  }

  /** The hand 7, 6, 5, 4, 3, 2 (in that order) is reported as a 6 high
      straight, while the same cards sorted ascending give a 7 high one:
      `straight?` reports the highest straight only on sorted input.  The
      suits are mixed so that no other check fires on these cards. */
  lemma StraightDependsOnOrder()
    ensures StraightOf(DescendingRun()) == Some(Six)
    ensures StraightOf(AscendingRun()) == Some(Seven)
    ensures multiset(DescendingRun()) == multiset(AscendingRun())
  {
    RunStraights(DescendingRun(), AscendingRun());
    SixReversed(DescendingRun(), AscendingRun());
  }

  lemma SixReversed(a: seq<Card>, b: seq<Card>)
    requires |a| == 6 && |b| == 6
    requires a[0] == b[5] && a[1] == b[4] && a[2] == b[3] && a[3] == b[2] && a[4] == b[1] && a[5] == b[0]
    ensures multiset(a) == multiset(b)
  {
    ReversedSameCards(a, b);
  }

  /** A hand and its reversal hold the same cards. */
  lemma {:induction false} ReversedSameCards(a: seq<Card>, b: seq<Card>)
    requires |a| == |b|
    requires forall i :: 0 <= i < |a| ==> a[i] == b[|a| - 1 - i]
    ensures multiset(a) == multiset(b)
  {
    if a != [] {
      var n := |a|;
      ReversedSameCards(a[1..], b[..n - 1]);
      assert a == [a[0]] + a[1..];
      assert b == b[..n - 1] + [b[n - 1]];
    }
  }

  function DescendingRun(): seq<Card> {
    [Standard(Seven, Diamonds), Standard(Six, Clubs), Standard(Five, Spades),
     Standard(Four, Hearts), Standard(Three, Diamonds), Standard(Two, Clubs)]
  }

  function AscendingRun(): seq<Card> {
    [Standard(Two, Clubs), Standard(Three, Diamonds), Standard(Four, Hearts),
     Standard(Five, Spades), Standard(Six, Clubs), Standard(Seven, Diamonds)]
  }

  lemma {:induction false} RunStraights(down: seq<Card>, up: seq<Card>)
    requires down == DescendingRun() && up == AscendingRun()
    ensures StraightOf(down) == Some(Six) && StraightOf(up) == Some(Seven)
  {
    DescendingCase(down);
    AscendingCase(up);
  }

  lemma {:induction false} DescendingCase(cards: seq<Card>)
    requires cards == DescendingRun()
    ensures StraightOf(cards) == Some(Six)
  {
    RunFacts(cards);
    DescendingRunStraight(cards);
  }

  lemma {:induction false} AscendingCase(cards: seq<Card>)
    requires cards == AscendingRun()
    ensures StraightOf(cards) == Some(Seven)
  {
    RunFacts(cards);
    AscendingRunStraight(cards);
  }

  /** Either run is six literal cards holding exactly the ranks 2 to 7. */
  lemma {:induction false} RunFacts(cards: seq<Card>)
    requires cards == DescendingRun() || cards == AscendingRun()
    ensures Select(cards, Literals) == cards && JokerCount(cards) == 0
    ensures forall r :: Present(cards, r) <==> r.Index() <= 5
  {
    var down := cards == DescendingRun();
    assert forall i :: 0 <= i < 6 ==> cards[i].Standard? && cards[i].rank == RankAt(if down then 5 - i else i);
    NoJokers(cards);
    forall r ensures Present(cards, r) <==> r.Index() <= 5 {
      RunRank(cards, down, r);
    }
  }

  /** Six literal cards whose ranks run from 2 to 7, upwards or downwards,
      hold exactly the ranks 2 to 7. */
  lemma {:induction false} RunRank(cards: seq<Card>, down: bool, r: Rank)
    requires |cards| == 6
    requires forall i :: 0 <= i < 6 ==> cards[i].Standard? && cards[i].rank == RankAt(if down then 5 - i else i)
    ensures Present(cards, r) <==> r.Index() <= 5
  {
    PresentMeans(cards, r);
    if r.Index() <= 5 {
      var i := if down then 5 - r.Index() else r.Index();
      assert cards[i] == Standard(r, cards[i].suit);
      assert cards[i] in cards;
    } else {
      forall i | 0 <= i < 6 ensures cards[i].rank != r {
        assert cards[i].rank.Index() <= 5;
      }
    }
  }

  lemma {:induction false} DescendingRunStraight(cards: seq<Card>)
    requires |cards| == 6 && cards[5] == Standard(Two, Clubs)
    requires Select(cards, Literals) == cards && JokerCount(cards) == 0
    requires forall i :: 0 < i <= 4 ==> Present(cards, RankAt(i))
    ensures StraightOf(cards) == Some(Six)
  {
    NoGaps(cards, 0, 4);
    assert AnchorOk(cards, cards[5].rank.Index());
    ScanHits(cards, 6);
    StraightFromAnchor(cards, 5);
    assert RankAt(4) == Six;
  }

  lemma {:induction false} AscendingRunStraight(cards: seq<Card>)
    requires |cards| == 6 && cards[5] == Standard(Seven, Diamonds) && cards[4] == Standard(Six, Clubs)
    requires cards[3] == Standard(Five, Spades) && cards[2] == Standard(Four, Hearts) && cards[1] == Standard(Three, Diamonds)
    requires Select(cards, Literals) == cards && JokerCount(cards) == 0
    requires forall r :: Present(cards, r) <==> r.Index() <= 5
    ensures StraightOf(cards) == Some(Seven)
  {
    AscendingScan(cards);
    StraightFromAnchor(cards, 1);
  }

  /** Scanning the ascending run from the top, the 3 is the first anchor. */
  lemma {:induction false} AscendingScan(cards: seq<Card>)
    requires |cards| == 6 && cards[5] == Standard(Seven, Diamonds) && cards[4] == Standard(Six, Clubs)
    requires cards[3] == Standard(Five, Spades) && cards[2] == Standard(Four, Hearts) && cards[1] == Standard(Three, Diamonds)
    requires Select(cards, Literals) == cards && JokerCount(cards) == 0
    requires forall r :: Present(cards, r) <==> r.Index() <= 5
    ensures ScanAnchors(cards, 6) == Some(1)
  {
    assert !Present(cards, RankAt(6));
    UpperCardsMissAll(cards);
    LowCardAnchors(cards);
  }

  /** The straight found from the anchor at position `i` is named by the
      rank four places above it. */
  lemma StraightFromAnchor(cards: seq<Card>, i: nat)
    requires i < |Select(cards, Literals)|
    requires ScanAnchors(cards, |Select(cards, Literals)|) == Some(i)
    ensures StraightOf(cards) == Some(RankAt(Select(cards, Literals)[i].rank.Index() + 4))
  {
  }

  /** With no anchor, the wheel test decides. */
  lemma StraightWithoutAnchor(cards: seq<Card>)
    requires ScanAnchors(cards, |Select(cards, Literals)|).None?
    ensures StraightOf(cards) == if WheelOk(cards) then Some(Five) else None
  {
  }

  lemma {:induction false} UpperCardsMissAll(cards: seq<Card>)
    requires |cards| == 6 && cards[5] == Standard(Seven, Diamonds) && cards[4] == Standard(Six, Clubs)
    requires cards[3] == Standard(Five, Spades) && cards[2] == Standard(Four, Hearts)
    requires Select(cards, Literals) == cards && JokerCount(cards) == 0
    requires !Present(cards, RankAt(6))
    ensures ScanAnchors(cards, 6) == ScanAnchors(cards, 2)
  {
    UpperPairMiss(cards);
    LowerCardsMiss(cards);
  }

  lemma {:induction false} UpperPairMiss(cards: seq<Card>)
    requires |cards| == 6 && cards[5] == Standard(Seven, Diamonds) && cards[4] == Standard(Six, Clubs)
    requires Select(cards, Literals) == cards && JokerCount(cards) == 0
    requires !Present(cards, RankAt(6))
    ensures ScanAnchors(cards, 6) == ScanAnchors(cards, 4)
  {
    assert cards[5].rank.Index() == 5;
    UpperCardsMiss(cards, 6);
    assert cards[4].rank.Index() == 4;
    UpperCardsMiss(cards, 5);
  }

  lemma {:induction false} LowerCardsMiss(cards: seq<Card>)
    requires |cards| == 6 && cards[3] == Standard(Five, Spades) && cards[2] == Standard(Four, Hearts)
    requires Select(cards, Literals) == cards && JokerCount(cards) == 0
    requires !Present(cards, RankAt(6))
    ensures ScanAnchors(cards, 4) == ScanAnchors(cards, 2)
  {
    UpperCardsMiss(cards, 4);
    UpperCardsMiss(cards, 3);
  }

  /** In the ascending run the 3 anchors the straight 3 to 7. */
  lemma {:induction false} LowCardAnchors(cards: seq<Card>)
    requires |cards| == 6 && cards[1] == Standard(Three, Diamonds)
    requires Select(cards, Literals) == cards && JokerCount(cards) == 0
    requires forall r :: Present(cards, r) <==> r.Index() <= 5
    ensures ScanAnchors(cards, 2) == Some(1)
  {
    NoGaps(cards, 1, 4);
    ScanHits(cards, 2);
  }

  /** In the ascending run, the cards 4 to 7 anchor nothing: the 8 is missing. */
  lemma {:induction false} UpperCardsMiss(cards: seq<Card>, k: nat)
    requires 3 <= k <= 6 && |cards| == 6
    requires Select(cards, Literals) == cards && JokerCount(cards) == 0
    requires !Present(cards, RankAt(6))
    requires cards[k - 1].Standard? && 2 <= cards[k - 1].rank.Index() <= 5
    ensures ScanAnchors(cards, k) == ScanAnchors(cards, k - 1)
  {
    SomeGap(cards, cards[k - 1].rank.Index(), 4, 6);
    ScanMisses(cards, k);
  }

  /** A rank missing among `v+1 .. v+k` is a gap. */
  lemma {:induction false} SomeGap(cards: seq<Card>, v: nat, k: nat, i: nat)
    requires v < i <= v + k && i < 13
    requires !Present(cards, RankAt(i))
    ensures GapsAbove(cards, v, k) >= 1
  {
    if i < v + k {
      SomeGap(cards, v, k - 1, i);
    }
  }

  lemma {:induction false} ScanHits(cards: seq<Card>, k: nat)
    requires 0 < k <= |Select(cards, Literals)|
    requires AnchorOk(cards, Select(cards, Literals)[k - 1].rank.Index())
    ensures ScanAnchors(cards, k) == Some(k - 1)
  {
  }

  lemma {:induction false} ScanMisses(cards: seq<Card>, k: nat)
    requires 0 < k <= |Select(cards, Literals)|
    requires !AnchorOk(cards, Select(cards, Literals)[k - 1].rank.Index())
    ensures ScanAnchors(cards, k) == ScanAnchors(cards, k - 1)
  {
  }

  /** The ranks `v+1 .. v+k` all being in the hand leaves no gaps. */
  lemma {:induction false} NoGaps(cards: seq<Card>, v: nat, k: nat)
    requires v + k < 13
    requires forall i :: v < i <= v + k ==> Present(cards, RankAt(i))
    ensures GapsAbove(cards, v, k) == 0
  {
    if k > 0 {
      NoGaps(cards, v, k - 1);
    }
  }

  /** A hand without Jokers is all literal cards. */
  lemma {:induction false} NoJokers(cards: seq<Card>)
    requires forall i :: 0 <= i < |cards| ==> cards[i].Standard?
    ensures Select(cards, Literals) == cards && JokerCount(cards) == 0
  {
    if cards != [] {
      NoJokers(cards[1..]);
    }
  }

  // ---------------------------------------------------------------------
  // The source's loops.

  /** The Joker loop shared by the wheel test and the Royal test: walks the
      ranks `rs`, spending one of `jokers` Jokers on each missing one. */
  method CoveredByJokers(cards: seq<Card>, rs: seq<Rank>, jokers: nat) returns (ok: bool)
    ensures ok <==> Absent(cards, rs) <= jokers
  {
    ok := true;
    var left := jokers;
    for i := 0 to |rs|
      invariant ok <==> Absent(cards, rs[..i]) <= jokers
      invariant left == if Absent(cards, rs[..i]) <= jokers then jokers - Absent(cards, rs[..i]) else 0
    {
      assert rs[..i + 1][..i] == rs[..i];
      if Present(cards, rs[i]) {
      } else if left > 0 {
        left := left - 1;
      } else {
        ok := false;
      }
    }
    assert rs[..|rs|] == rs;
  }

  /** One pass of the source's anchor loop: steps one to four places above
      the anchor at position `v`, spending a Joker on each missing rank. */
  method TryAnchor(cards: seq<Card>, v: nat, jokerCount: nat) returns (ok: bool, highest: Rank)
    requires v < 13 && jokerCount == JokerCount(cards)
    ensures ok <==> AnchorOk(cards, v)
    ensures ok ==> highest == RankAt(v + 4)
  {
    highest := RankAt(v);
    ok := true;
    var jokers := jokerCount;
    for step := 1 to 5
      invariant ok <==> v + step - 1 <= 12 && GapsAbove(cards, v, step - 1) <= jokerCount
      invariant jokers == if GapsAbove(cards, v, step - 1) <= jokerCount then jokerCount - GapsAbove(cards, v, step - 1) else 0
      invariant ok && step > 1 ==> highest == RankAt(v + step - 1)
    {
      assert GapsAbove(cards, v, step) == GapsAbove(cards, v, step - 1)
        + (if v + step <= 12 && !Present(cards, RankAt(v + step)) then 1 else 0);
      if v + step <= 12 {
        var needed := RankAt(v + step);
        if Present(cards, needed) {
          highest := needed;
        } else if jokers > 0 {
          jokers := jokers - 1;
          highest := needed;
        } else {
          ok := false;
        }
      } else {
        ok := false;
      }
    }
  }

  /** `straight?` as the source runs it: anchors in reverse hand order, the
      Joker count reset for each anchor, the wheel last. */
  method FindStraight(cards: seq<Card>) returns (high: Option<Rank>)
    ensures high == StraightOf(cards)
  {
    var lits := Select(cards, Literals);
    var jokerCount := JokerCount(cards);
    var i := |lits|;
    while i > 0
      invariant 0 <= i <= |lits|
      invariant ScanAnchors(cards, |lits|) == ScanAnchors(cards, i)
    {
      var v := lits[i - 1].rank.Index();
      var ok, highest := TryAnchor(cards, v, jokerCount);
      if ok {
        HitReports(cards, i, v);
        return Some(highest);
      }
      MissKeepsScan(cards, i, v);
      i := i - 1;
    }
    StraightWithoutAnchor(cards);
    high := TryWheel(cards, jokerCount);
  }

  /** A step of `FindStraight` whose anchor works ends the scan with the
      straight `StraightOf` reports. */
  lemma HitReports(cards: seq<Card>, i: nat, v: nat)
    requires 0 < i <= |Select(cards, Literals)|
    requires ScanAnchors(cards, |Select(cards, Literals)|) == ScanAnchors(cards, i)
    requires v == Select(cards, Literals)[i - 1].rank.Index() && AnchorOk(cards, v)
    ensures StraightOf(cards) == Some(RankAt(v + 4))
  {
    ScanHits(cards, i);
    StraightFromAnchor(cards, i - 1);
  }

  /** A step of `FindStraight` whose anchor fails leaves the scan's outcome
      to the cards before it. */
  lemma MissKeepsScan(cards: seq<Card>, i: nat, v: nat)
    requires 0 < i <= |Select(cards, Literals)|
    requires ScanAnchors(cards, |Select(cards, Literals)|) == ScanAnchors(cards, i)
    requires v == Select(cards, Literals)[i - 1].rank.Index() && !AnchorOk(cards, v)
    ensures ScanAnchors(cards, |Select(cards, Literals)|) == ScanAnchors(cards, i - 1)
  {
    ScanMisses(cards, i);
  }

  /** The wheel test of `straight?` (lines 204-217). */
  method TryWheel(cards: seq<Card>, jokerCount: nat) returns (high: Option<Rank>)
    requires jokerCount == JokerCount(cards)
    ensures high == if WheelOk(cards) then Some(Five) else None
  {
    if Present(cards, Ace) || jokerCount > 0 {
      var ok := CoveredByJokers(cards, WHEEL, jokerCount);
      if ok {
        return Some(Five);
      }
    }
    return None;
  }
}
