/** `Deck` of cards.rb (lines 63-118): a draw pile `cards` and a discard pile
    `drawn`, filled in suit-major order, recycled by `return_discards`,
    shuffled into an arbitrary order, and drawn from by `draw`. */
module Decks {
  import opened Wrappers
  import opened Cards
  import opened Tally

  // ---------------------------------------------------------------------
  // The cards `fill` appends.

  /** The first `k` cards of suit `s`, in RANK_ORDER. */
  function SuitRun(s: Suit, k: nat): (r: seq<Card>)
    requires k <= 13
    ensures |r| == k
  {
    if k == 0 then [] else SuitRun(s, k - 1) + [Standard(RankAt(k - 1), s)]
  }

  /** The full runs of the suits `suits`, one after another. */
  function Runs(suits: seq<Suit>): (r: seq<Card>)
    ensures |r| == 13 * |suits|
  {
    if suits == [] then [] else Runs(suits[..|suits| - 1]) + SuitRun(suits[|suits| - 1], 13)
  }

  /** The 52 standard cards in the order `fill` appends them. */
  function StandardCards(): seq<Card> {
    Runs(SUITS)
  }

  /** The Jokers `fill` appends: a Red and a Black one, when asked for. */
  function JokerPair(jokers: bool): seq<Card> {
    if jokers then [Joker(Red), Joker(Black)] else []
  }

  /** What `fill` appends: the standard cards, then the Jokers. */
  function FullDeck(jokers: bool): (d: seq<Card>)
    ensures |d| == if jokers then 54 else 52
    ensures d[52..] == JokerPair(jokers)
  {
    StandardCards() + JokerPair(jokers)
  }

  /** `fill` is suit-major and rank-minor: card 13*s + r is rank r of suit s. */
  lemma FullDeckOrder(jokers: bool, r: Rank, s: Suit)
    ensures 13 * s.Index() + r.Index() < |FullDeck(jokers)|
    ensures FullDeck(jokers)[13 * s.Index() + r.Index()] == Standard(r, s)
  {
    RunsAt(SUITS, s.Index(), r);
  }

  lemma {:induction false} RunsAt(suits: seq<Suit>, j: nat, r: Rank)
    requires j < |suits|
    ensures 13 * j + r.Index() < |Runs(suits)|
    ensures Runs(suits)[13 * j + r.Index()] == Standard(r, suits[j])
  {
    var n := |suits| - 1;
    var prefix := suits[..n];
    assert suits == prefix + [suits[n]];
    if j < n {
      RunsAt(prefix, j, r);
    } else {
      SuitRunAt(suits[n], 13, r);
    }
  }

  lemma {:induction false} SuitRunAt(s: Suit, k: nat, r: Rank)
    requires r.Index() < k <= 13
    ensures SuitRun(s, k)[r.Index()] == Standard(r, s)
  {
    if r.Index() < k - 1 {
      SuitRunAt(s, k - 1, r);
    }
  }

  lemma {:induction false} SuitRunNoJoker(s: Suit, k: nat, c: Color)
    requires k <= 13
    ensures Joker(c) !in SuitRun(s, k)
  {
    if k > 0 {
      SuitRunNoJoker(s, k - 1, c);
      assert SuitRun(s, k) == SuitRun(s, k - 1) + [Standard(RankAt(k - 1), s)];
    }
  }

  /** A filled deck holds every standard card exactly once. */
  lemma FullDeckHoldsEachCardOnce(jokers: bool, r: Rank, s: Suit)
    ensures multiset(FullDeck(jokers))[Standard(r, s)] == 1
  {
    StandardCardsOnce(r, s);
    CountWithJokers(StandardCards(), jokers, Standard(r, s));
  }

  /** A filled deck holds each Joker once when Jokers are asked for, and
      none otherwise. */
  lemma FullDeckJokers(jokers: bool, c: Color)
    ensures multiset(FullDeck(jokers))[Joker(c)] == if jokers then 1 else 0
  {
    StandardCardsNoJoker(c);
    CountWithJokers(StandardCards(), jokers, Joker(c));
  }

  lemma StandardCardsOnce(r: Rank, s: Suit)
    ensures multiset(StandardCards())[Standard(r, s)] == 1
  {
    RunsCount(SUITS, r, s);
    EachSuitOnce(s);
  }

  /** SUITS lists every suit exactly once. */
  lemma EachSuitOnce(s: Suit)
    ensures multiset(SUITS)[s] == 1
  {
    assert SUITS == [Clubs] + [Diamonds] + [Hearts] + [Spades];
  }

  lemma StandardCardsNoJoker(c: Color)
    ensures multiset(StandardCards())[Joker(c)] == 0
  {
    RunsNoJoker(SUITS, c);
  }

  lemma CountWithJokers(std: seq<Card>, jokers: bool, x: Card)
    ensures multiset(std + JokerPair(jokers))[x] == multiset(std)[x] + if jokers && x.Joker? then 1 else 0
  {
    var extra := JokerPair(jokers);
    assert multiset(std + extra) == multiset(std) + multiset(extra);
    if jokers {
      assert multiset(extra) == multiset{Joker(Red)} + multiset{Joker(Black)};
      if x.Joker? {
        match x.color
        case Red =>
          assert x == Joker(Red);
          assert multiset(extra)[x] == 1 + 0;
        case Black =>
          assert x == Joker(Black);
          assert multiset(extra)[x] == 0 + 1;
      }
    }
  }

  /** A run of suits holds a standard card as often as it lists its suit. */
  lemma {:induction false} RunsCount(suits: seq<Suit>, r: Rank, s: Suit)
    ensures multiset(Runs(suits))[Standard(r, s)] == multiset(suits)[s]
    decreases |suits|
  {
    if suits != [] {
      RunsCount(suits[..|suits| - 1], r, s);
      RunsCountStep(suits, r, s);
    }
  }

  lemma RunsCountStep(suits: seq<Suit>, r: Rank, s: Suit)
    requires suits != []
    requires multiset(Runs(suits[..|suits| - 1]))[Standard(r, s)] == multiset(suits[..|suits| - 1])[s]
    ensures multiset(Runs(suits))[Standard(r, s)] == multiset(suits)[s]
  {
    var n := |suits| - 1;
    FullRunCount(suits[n], r, s);
    assert multiset(Runs(suits[..n]) + SuitRun(suits[n], 13)) == multiset(Runs(suits[..n])) + multiset(SuitRun(suits[n], 13));
    LastSuitCount(suits, s);
  }

  /** A suit's run holds each of its cards once and no other suit's. */
  lemma FullRunCount(t: Suit, r: Rank, s: Suit)
    ensures multiset(SuitRun(t, 13))[Standard(r, s)] == if t == s then 1 else 0
  {
    SuitRunCount(t, 13, r, s);
  }

  lemma LastSuitCount(suits: seq<Suit>, s: Suit)
    requires suits != []
    ensures multiset(suits)[s] == multiset(suits[..|suits| - 1])[s] + if suits[|suits| - 1] == s then 1 else 0
  {
    var n := |suits| - 1;
    assert suits == suits[..n] + [suits[n]];
    assert multiset(suits) == multiset(suits[..n]) + multiset{suits[n]};
  }

  lemma {:induction false} SuitRunCount(t: Suit, k: nat, r: Rank, s: Suit)
    requires k <= 13
    ensures multiset(SuitRun(t, k))[Standard(r, s)] == if t == s && r.Index() < k then 1 else 0
  {
    if k > 0 {
      SuitRunCount(t, k - 1, r, s);
      SuitRunCountStep(t, k, r, s);
    }
  }

  lemma SuitRunCountStep(t: Suit, k: nat, r: Rank, s: Suit)
    requires 0 < k <= 13
    requires multiset(SuitRun(t, k - 1))[Standard(r, s)] == if t == s && r.Index() < k - 1 then 1 else 0
    ensures multiset(SuitRun(t, k))[Standard(r, s)] == if t == s && r.Index() < k then 1 else 0
  {
    var x, c := Standard(RankAt(k - 1), t), Standard(r, s);
    var before := SuitRun(t, k - 1);
    assert SuitRun(t, k) == before + [x];
    assert multiset(before + [x]) == multiset(before) + multiset{x};
    assert multiset{x}[c] == if x == c then 1 else 0;
    assert x == c <==> t == s && r.Index() == k - 1 by {
      if r.Index() == k - 1 {
        assert RANK_ORDER[r.Index()] == r;
      }
    }
  }

  lemma {:induction false} RunsNoJoker(suits: seq<Suit>, c: Color)
    ensures Joker(c) !in Runs(suits)
    decreases |suits|
  {
    if suits != [] {
      var n := |suits| - 1;
      RunsNoJoker(suits[..n], c);
      SuitRunNoJoker(suits[n], 13, c);
    }
  }

  // ---------------------------------------------------------------------
  // Sorting a drawn hand (`sort_by!`, which is not stable: any order of
  // equal keys is possible).

  /** Inserts `c` into the sorted `s` after every card with a smaller key. */
  function Insert(s: seq<Card>, c: Card): (r: seq<Card>)
    requires SortedByKey(s)
    ensures SortedByKey(r) && multiset(r) == multiset(s) + multiset{c}
  {
    if s == [] then [c]
    else if SortKey(c) <= SortKey(s[0]) then
      assert forall i :: 0 < i < |s| ==> SortKey(s[0]) <= SortKey(s[i]);
      [c] + s
    else
      SortedTail(s);
      var rest := Insert(s[1..], c);
      assert s == [s[0]] + s[1..];
      HeadBelowAll(s, c, rest);
      [s[0]] + rest
  }

  lemma HeadBelowAll(s: seq<Card>, c: Card, rest: seq<Card>)
    requires SortedByKey(s) && s != [] && SortKey(s[0]) < SortKey(c)
    requires SortedByKey(rest) && multiset(rest) == multiset(s[1..]) + multiset{c}
    ensures SortedByKey([s[0]] + rest)
  {
    forall d | d in rest ensures SortKey(s[0]) <= SortKey(d) {
      assert d in multiset(rest);
      if d != c {
        assert d in multiset(s[1..]);
        var k :| 0 <= k < |s[1..]| && s[1..][k] == d;
        assert s[k + 1] == d;
      }
    }
    SortedCons(s[0], rest);
  }

  /** A sorted arrangement of `s`: the witness that `draw`'s sort exists. */
  function SortByKey(s: seq<Card>): (r: seq<Card>)
    ensures SortedByKey(r) && multiset(r) == multiset(s)
  {
    if s == [] then []
    else
      assert s == s[..|s| - 1] + [s[|s| - 1]];
      Insert(SortByKey(s[..|s| - 1]), s[|s| - 1])
  }

  // ---------------------------------------------------------------------
  // The deck.

  /** Moving the first `n` cards of the pile, in any order, onto the
      discards keeps every card of the deck. */
  lemma HandOutKeepsTotal(pile: seq<Card>, drawn: seq<Card>, n: nat, hand: seq<Card>)
    requires n <= |pile| && multiset(hand) == multiset(pile[..n])
    ensures multiset(pile[n..] + (drawn + hand)) == multiset(pile + drawn)
  {
    assert pile == pile[..n] + pile[n..];
  }

  /** One pass of `fill`'s outer loop: suit `suits[i]`'s run follows the
      runs before it. */
  lemma RunsStep(start: seq<Card>, before: seq<Card>, cards: seq<Card>, suits: seq<Suit>, i: nat)
    requires i < |suits|
    requires before == start + Runs(suits[..i])
    requires cards == before + SuitRun(suits[i], 13)
    ensures cards == start + Runs(suits[..i + 1])
  {
    assert suits[..i + 1][..i] == suits[..i];
    assert (start + Runs(suits[..i])) + SuitRun(suits[i], 13) == start + (Runs(suits[..i]) + SuitRun(suits[i], 13));
  }

  /** The last step of `fill`: the Jokers follow the standard cards. */
  lemma FillEnd(start: seq<Card>, standard: seq<Card>, cards: seq<Card>, jokers: bool)
    requires standard == start + Runs(SUITS[..|SUITS|])
    requires cards == standard + JokerPair(jokers)
    ensures cards == start + FullDeck(jokers)
  {
    var all := SUITS;
    assert all[..|all|] == all;
    assert FullDeck(jokers) == Runs(all) + JokerPair(jokers);
    assert (start + Runs(all)) + JokerPair(jokers) == start + (Runs(all) + JokerPair(jokers));
  }

  /** `[] + y == y`, stated over any `y` so that the verifier does not
      unfold the 52 cards of a filled deck to see it. */
  lemma EmptyPrefix(x: seq<Card>, y: seq<Card>)
    requires x == [] + y
    ensures x == y
  {
  }

  /** Why `draw` gives no hand: more cards asked for than the deck holds. */
  datatype DrawError = NotEnoughCards

  class Deck {
    var cards: seq<Card>
    var drawn: seq<Card>

    /** `Deck.new(:jokers => jokers)`: empty piles, then `fill`. */
    constructor (jokers: bool)
      ensures cards == FullDeck(jokers) && drawn == []
    {
      cards := [];
      drawn := [];
      new;
      Fill(jokers);
      EmptyPrefix(cards, FullDeck(jokers));
    }

    /** Every card of the deck, wherever it is. */
    ghost function Total(): multiset<Card>
      reads this
    {
      multiset(cards + drawn)
    }

    /** `fill`'s inner loop (cards.rb:69-75): the thirteen cards of suit
        `s`, in rank order. */
    method AppendSuit(s: Suit)
      modifies this
      ensures cards == old(cards) + SuitRun(s, 13) && drawn == old(drawn)
    {
      for ri := 0 to 13
        invariant cards == old(cards) + SuitRun(s, ri) && drawn == old(drawn)
      {
        var c := Standard(RankAt(ri), s);
        assert (old(cards) + SuitRun(s, ri)) + [c] == old(cards) + (SuitRun(s, ri) + [c]);
        cards := cards + [c];
      }
    }

    /** `fill`: for each suit, its run of ranks; then the two Jokers if
        asked for. */
    method Fill(jokers: bool)
      modifies this
      ensures cards == old(cards) + FullDeck(jokers) && drawn == old(drawn)
    {
      for si := 0 to |SUITS|
        invariant cards == old(cards) + Runs(SUITS[..si]) && drawn == old(drawn)
      {
        ghost var before := cards;
        AppendSuit(SUITS[si]);
        RunsStep(old(cards), before, cards, SUITS, si);
      }
      ghost var standard := cards;
      if jokers {
        AppendJokers();
      }
      FillEnd(old(cards), standard, cards, jokers);
    }

    /** `fill`'s Joker loop (cards.rb:76-83): a Red Joker, then a Black one. */
    method AppendJokers()
      modifies this
      ensures cards == old(cards) + JokerPair(true) && drawn == old(drawn)
    {
      cards := cards + [Joker(Red)];
      cards := cards + [Joker(Black)];
      assert (old(cards) + [Joker(Red)]) + [Joker(Black)] == old(cards) + ([Joker(Red)] + [Joker(Black)]);
    }

    /** `return_discards`: the discards go under the draw pile. */
    method ReturnDiscards()
      modifies this
      ensures cards == old(cards) + old(drawn) && drawn == []
      ensures Total() == old(Total())
    {
      cards := cards + drawn;
      drawn := [];
    }

    /** `shuffle`: return the discards, then put the pile into an arbitrary
        order (the source's random `sort_by`). */
    method Shuffle()
      modifies this
      ensures multiset(cards) == multiset(old(cards) + old(drawn)) && drawn == []
      ensures Total() == old(Total())
    {
      ReturnDiscards();
      var order :| multiset(order) == multiset(cards);
      cards := order;
    }

    /** `draw(n)` with the two slice bugs corrected: `n == 0` draws nothing
        and `n` beyond the whole deck is refused. Otherwise, reshuffle when
        the pile is short, take the first `n` cards of the (possibly
        reshuffled) pile `pile`, sort them by key, and discard them. */
    method Draw(n: nat) returns (r: Result<seq<Card>, DrawError>, ghost pile: seq<Card>)
      modifies this
      ensures r.Err? <==> n > old(|cards| + |drawn|)
      ensures r.Err? ==> cards == old(cards) && drawn == old(drawn)
      ensures r.Ok? && n <= old(|cards|) ==> pile == old(cards) && drawn == old(drawn) + r.value
      ensures r.Ok? && n > old(|cards|) ==> multiset(pile) == multiset(old(cards) + old(drawn)) && drawn == r.value
      ensures r.Ok? ==> n <= |pile| && cards == pile[n..]
      ensures r.Ok? ==> |r.value| == n && SortedByKey(r.value) && multiset(r.value) == multiset(pile[..n])
      ensures Total() == old(Total())
    {
      pile := cards;
      if n > |cards| + |drawn| {
        return Err(NotEnoughCards), pile;
      }
      if |cards| < n {
        Shuffle();
        assert |cards| == |multiset(cards)| == |multiset(old(cards) + old(drawn))|;
      }
      pile := cards;
      var pulled := cards[..n];
      var hand := SortByKey(pulled);
      assert |hand| == |multiset(hand)| == |pulled|;
      HandOutKeepsTotal(pile, drawn, n, hand);
      cards := cards[n..];
      drawn := drawn + hand;
      r := Ok(hand);
    }
  }

  // ---------------------------------------------------------------------
  // `draw` as written: Ruby's `cards[0..hand-1]` and `cards[hand..-1]`.

  /** Ruby's `s[a..b]` for `0 <= a` and `b >= -1`: `b == -1` means the last
      element; a start past the end gives nil, a start at the end []. */
  function RubySlice(s: seq<Card>, a: nat, b: int): (r: Option<seq<Card>>)
    requires b >= -1
    ensures r.None? <==> a > |s|
    ensures a <= |s| && (b == -1 || |s| <= b + 1) ==> r == Some(s[a..])
    ensures a <= b < |s| ==> r == Some(s[a..b + 1])
    ensures 0 <= b < a <= |s| ==> r == Some([])
  {
    if a > |s| then None
    else
      assert s[|s|..] == [] && s[a..|s|] == s[a..];
      var stop := if b == -1 then |s| else if b + 1 < |s| then b + 1 else |s|;
      if stop <= a then Some([]) else Some(s[a..stop])
  }

  /** The hand `draw` returns and the pile it leaves (None for nil). */
  datatype Drawn = Drawn(pulled: seq<Card>, rest: Option<seq<Card>>)

  /** The hand and the new pile `draw(n)` computes from the pile as it is
      after the optional reshuffle. */
  function DrawAsWritten(pile: seq<Card>, n: nat): (d: Drawn)
    ensures d.rest.None? <==> n > |pile|
  {
    Drawn(RubySlice(pile, 0, n - 1).value, RubySlice(pile, n, -1))
  }

  /** For 1 <= n <= |pile| the source takes the first n cards and keeps the
      rest, as `Draw` does. */
  lemma DrawAsWrittenAgrees(pile: seq<Card>, n: nat)
    requires 1 <= n <= |pile|
    ensures DrawAsWritten(pile, n) == Drawn(pile[..n], Some(pile[n..]))
  {
    assert RubySlice(pile, 0, n - 1) == Some(pile[..n]);
    if n == |pile| {
      assert pile[n..] == [];
    } else {
      assert pile[n..|pile|] == pile[n..];
    }
    assert RubySlice(pile, n, -1) == Some(pile[n..]);
  }

  /** `draw(0)` hands out the whole pile and keeps it too: afterwards every
      card of the pile is counted twice. */
  lemma DrawZeroDuplicates(pile: seq<Card>, drawn: seq<Card>)
    requires pile != []
    ensures DrawAsWritten(pile, 0) == Drawn(pile, Some(pile))
    ensures multiset(DrawAsWritten(pile, 0).rest.value + (drawn + DrawAsWritten(pile, 0).pulled))
            != multiset(pile + drawn)
  {
    var after := pile + (drawn + pile);
    assert |multiset(after)| == |after| > |pile + drawn| == |multiset(pile + drawn)|;
  }

  /** Asking for more cards than the whole deck leaves the pile as nil. */
  lemma DrawPastEndLosesPile(pile: seq<Card>, n: nat)
    requires n > |pile|
    ensures DrawAsWritten(pile, n).rest.None?
    ensures DrawAsWritten(pile, n).pulled == pile
  {
  }
}
